/** How one provider lookup reads the upstream's replies: retries, outcome and error accounting. */
module Upstream {
  import opened Wrappers
  import opened Domain

  const PROVIDER_NAME := "ipinfo"

  /**
    A reply's country code: the text, what Python's `upper` makes of it, and whether the result consists of
    letters by Python's `isalpha`. Both follow Unicode's tables and are inputs here.
   */
  datatype Code = Code(text: string, upper: string, alphabetic: bool)

  /** The decoded body of a reply: not JSON, or the two fields if they are strings. */
  datatype Body = NotJson | Fields(countryCode: Option<Code>, country: Option<string>)

  /** What one HTTP attempt comes to. */
  datatype Attempt = TimedOut | TransportError | Reply(status: int, body: Body)

  /** What one attempt means for the lookup. */
  datatype Verdict = Usable(answer: Answer) | Retryable(kind: ProviderError) | Fatal(kind: ProviderError)

  /** Unicode's white space, as Python's `strip` removes it. */
  predicate Space(c: char)
  {
    var n := c as int;
    || 9 <= n <= 13 || 28 <= n <= 32 || n == 0x85 || n == 0xA0 || n == 0x1680 || 0x2000 <= n <= 0x200A
    || n == 0x2028 || n == 0x2029 || n == 0x202F || n == 0x205F || n == 0x3000
  }

  function TrimLeft(s: string): string
  {
    if s != [] && Space(s[0]) then TrimLeft(s[1..]) else s
  }

  function TrimRight(s: string): string
  {
    if s != [] && Space(s[|s| - 1]) then TrimRight(s[..|s| - 1]) else s
  }

  function Strip(s: string): string
  {
    TrimRight(TrimLeft(s))
  }

  function Parse(body: Body): Option<Answer>
  {
    match body
    case Fields(Some(code), Some(country)) =>
      var name := Strip(country);
      if |code.upper| == 2 && code.alphabetic && 0 < |name| <= 128 then Some(Answer(code.upper, name, PROVIDER_NAME))
      else None
    case _ => None
  }

  function Judge(attempt: Attempt): Verdict
  {
    match attempt
    case TimedOut => Retryable(Timeout)
    case TransportError => Retryable(Unavailable)
    case Reply(status, body) =>
      if status == 401 || status == 403 then Fatal(Authentication)
      else if status == 429 then Fatal(RateLimited)
      else if status >= 500 then Retryable(Unavailable)
      else if status >= 400 then Fatal(InvalidResponse)
      else match Parse(body) case Some(answer) => Usable(answer) case None => Fatal(InvalidResponse)
  }

  function Conclusion(v: Verdict): Result<Answer>
  {
    match v
    case Usable(answer) => Ok(answer)
    case Retryable(kind) => Err(ProviderFailure(kind))
    case Fatal(kind) => Err(ProviderFailure(kind))
  }

  /** The counters one provider lookup increments, from the attempt that ended it. */
  function ConclusionSamples(v: Verdict): Counters
  {
    match v
    case Usable(_) => multiset{ProviderRequests(true)}
    case Retryable(kind) => multiset{ProviderErrors(kind), ProviderRequests(false)}
    case Fatal(kind) => multiset{ProviderErrors(kind), ProviderRequests(false)}
  }

  /** After `made` attempts the lookup makes no other: the last is final or the retries are used up. */
  predicate Final(v: Verdict, made: nat, maxRetries: nat)
  {
    !v.Retryable? || made >= maxRetries + 1
  }

  predicate StopsAfter(attempts: nat -> Attempt, maxRetries: nat, k: nat)
  {
    Final(Judge(attempts(k)), k + 1, maxRetries)
  }

  /** None of the first `n` attempts ends the lookup. */
  ghost predicate Going(attempts: nat -> Attempt, maxRetries: nat, n: nat)
  {
    forall k: nat :: k < n ==> !StopsAfter(attempts, maxRetries, k)
  }

  /** A lookup that sees these attempts makes exactly `n` of them. */
  ghost predicate Makes(attempts: nat -> Attempt, maxRetries: nat, n: nat)
  {
    n >= 1 && StopsAfter(attempts, maxRetries, n - 1) && Going(attempts, maxRetries, n - 1)
  }

  /** Every lookup makes some number of attempts, at most one more than the retries allowed. */
  lemma AttemptsExist(attempts: nat -> Attempt, maxRetries: nat) returns (n: nat)
    ensures Makes(attempts, maxRetries, n)
  {
    n := 1;
    while !StopsAfter(attempts, maxRetries, n - 1)
      invariant 1 <= n <= maxRetries + 1
      invariant forall k: nat :: k < n - 1 ==> !StopsAfter(attempts, maxRetries, k)
      decreases maxRetries + 1 - n
    {
      n := n + 1;
    }
  }

  /** The number of attempts is unique and bounded, and all but the last were retryable. */
  lemma AttemptsBounded(attempts: nat -> Attempt, maxRetries: nat, n: nat)
    requires Makes(attempts, maxRetries, n)
    ensures n <= maxRetries + 1
    ensures forall m: nat :: Makes(attempts, maxRetries, m) ==> m == n
    ensures forall k: nat :: k < n - 1 ==> Judge(attempts(k)).Retryable?
    ensures n <= maxRetries ==> !Judge(attempts(n - 1)).Retryable?
  {
    if n > maxRetries + 1 {
      assert StopsAfter(attempts, maxRetries, maxRetries);
    }
    forall m: nat | Makes(attempts, maxRetries, m) ensures m == n {
      assert StopsAfter(attempts, maxRetries, m - 1) && StopsAfter(attempts, maxRetries, n - 1);
    }
    forall k: nat | k < n - 1 ensures Judge(attempts(k)).Retryable? {
      assert !StopsAfter(attempts, maxRetries, k);
    }
  }

  /** Rows built from usable replies fit the table's columns. */
  predicate FitsColumns(a: Answer)
  {
    && |a.countryCode| == 2
    && 0 < |a.countryName| <= 128
    && !Space(a.countryName[0]) && !Space(a.countryName[|a.countryName| - 1])
    && |a.provider| <= 32
  }

  lemma {:induction false} TrimRightShape(s: string)
    ensures TrimRight(s) <= s
    ensures TrimRight(s) != [] ==> !Space(TrimRight(s)[|TrimRight(s)| - 1])
  {
    if s != [] && Space(s[|s| - 1]) {
      TrimRightShape(s[..|s| - 1]);
    }
  }

  lemma {:induction false} TrimLeftShape(s: string)
    ensures TrimLeft(s) != [] ==> !Space(TrimLeft(s)[0])
  {
    if s != [] && Space(s[0]) {
      TrimLeftShape(s[1..]);
    }
  }

  lemma UsableFitsColumns(attempt: Attempt)
    ensures Judge(attempt).Usable? ==> FitsColumns(Judge(attempt).answer)
  {
    if Judge(attempt).Usable? {
      var country := attempt.body.country.value;
      TrimLeftShape(country);
      TrimRightShape(TrimLeft(country));
      assert Strip(country)[0] == TrimLeft(country)[0];
    }
  }

  // ---- Which codes are capitals ----

  predicate Capital(c: char)
  {
    'A' <= c <= 'Z'
  }

  /** The capital of a letter of ASCII, and other characters of ASCII as they are. */
  function UpperAscii(c: char): char
  {
    if 'a' <= c <= 'z' then (c as int - 32) as char else c
  }

  predicate Ascii(s: string)
  {
    forall k :: 0 <= k < |s| ==> s[k] as int < 128
  }

  predicate LetterAscii(c: char)
  {
    'A' <= c <= 'Z' || 'a' <= c <= 'z'
  }

  /** Python's tables: what `upper` makes of each character, and which characters are letters for `isalpha`. */
  datatype Tables = Tables(upper: char -> string, letter: char -> bool)

  function Upper(tables: Tables, s: string): string
  {
    if s == "" then "" else tables.upper(s[0]) + Upper(tables, s[1..])
  }

  predicate NoSmall(s: string)
  {
    forall k :: 0 <= k < |s| ==> !('a' <= s[k] <= 'z')
  }

  /**
    Of the tables, what is fixed: ASCII characters have their capitals and only the 52 letters among them are
    letters, and no character has small letters of ASCII in its capital form.
   */
  ghost predicate PythonTables(tables: Tables)
  {
    && (forall c: char :: c as int < 128 ==> tables.upper(c) == [UpperAscii(c)])
    && (forall c: char :: c as int < 128 ==> (tables.letter(c) <==> LetterAscii(c)))
    && (forall c: char :: NoSmall(tables.upper(c)))
  }

  /** The code is what the tables make of its text. */
  predicate ReadBy(tables: Tables, code: Code)
  {
    && code.upper == Upper(tables, code.text)
    && (code.alphabetic <==> code.upper != "" && forall k :: 0 <= k < |code.upper| ==> tables.letter(code.upper[k]))
  }

  lemma {:induction false} UpperHasNoSmall(tables: Tables, s: string)
    requires PythonTables(tables)
    ensures NoSmall(Upper(tables, s))
    decreases |s|
  {
    if s != "" {
      UpperHasNoSmall(tables, s[1..]);
      assert NoSmall(tables.upper(s[0]));
    }
  }

  lemma {:induction false} UpperOfAscii(tables: Tables, s: string)
    requires PythonTables(tables) && Ascii(s)
    ensures Ascii(Upper(tables, s))
    decreases |s|
  {
    if s != "" {
      UpperOfAscii(tables, s[1..]);
      assert tables.upper(s[0]) == [UpperAscii(s[0])];
    }
  }

  predicate Capitals(code: string)
  {
    forall k :: 0 <= k < |code| ==> Capital(code[k])
  }

  /** The code of an accepted reply consists of capitals exactly if the capital form of its text is ASCII. */
  lemma CapitalsIffAscii(tables: Tables, attempt: Attempt)
    requires PythonTables(tables) && Judge(attempt).Usable? && ReadBy(tables, attempt.body.countryCode.value)
    ensures Capitals(Judge(attempt).answer.countryCode)
            <==> Ascii(Upper(tables, attempt.body.countryCode.value.text))
  {
    UpperHasNoSmall(tables, attempt.body.countryCode.value.text);
  }

  /** So it does if the text itself is ASCII. */
  lemma AsciiCodesAreCapitals(tables: Tables, attempt: Attempt)
    requires PythonTables(tables) && Judge(attempt).Usable? && ReadBy(tables, attempt.body.countryCode.value)
    requires Ascii(attempt.body.countryCode.value.text)
    ensures Capitals(Judge(attempt).answer.countryCode)
  {
    CapitalsIffAscii(tables, attempt);
    UpperOfAscii(tables, attempt.body.countryCode.value.text);
  }

  function ReplyWith(code: Code, country: string): Attempt
  {
    Reply(200, Fields(Some(code), Some(country)))
  }

  /** Two ideographs, which have no other case and are letters, are accepted as they are, and are no capitals. */
  lemma OtherCodesNeedNotBe(tables: Tables, country: string)
    requires tables.upper('\U{4E2D}') == "\U{4E2D}" && tables.upper('\U{56FD}') == "\U{56FD}"
    requires tables.letter('\U{4E2D}') && tables.letter('\U{56FD}') && 0 < |Strip(country)| <= 128
    ensures var text := "\U{4E2D}\U{56FD}";
            var attempt := ReplyWith(Code(text, text, true), country);
            && ReadBy(tables, Code(text, text, true)) && Judge(attempt).Usable?
            && Judge(attempt).answer.countryCode == text && !Capitals(text)
  {
    var text := "\U{4E2D}\U{56FD}";
    assert text[0] == '\U{4E2D}' && text[1] == '\U{56FD}' && text[0] as int == 0x4E2D;
    UpperOfOne(tables, text[1..]);
    assert Upper(tables, text) == tables.upper(text[0]) + Upper(tables, text[1..]);
  }

  /** The sharp s has the capital form `SS` and is accepted as these two capitals, though it is not ASCII. */
  lemma SharpSIsCapitals(tables: Tables, country: string)
    requires PythonTables(tables) && tables.upper('\U{00DF}') == "SS" && 0 < |Strip(country)| <= 128
    ensures var text := "\U{00DF}";
            var code := Code(text, "SS", true);
            var attempt := ReplyWith(code, country);
            && ReadBy(tables, code) && Judge(attempt).Usable? && !Ascii(code.text)
            && Judge(attempt).answer.countryCode == "SS" && Capitals("SS")
  {
    var text := "\U{00DF}";
    assert text[0] == '\U{00DF}' && text[0] as int == 0xDF;
    UpperOfOne(tables, text);
    assert LetterAscii('S') && tables.letter('S');
    assert forall k :: 0 <= k < 2 ==> "SS"[k] == 'S';
  }

  lemma UpperOfOne(tables: Tables, s: string)
    requires |s| == 1
    ensures Upper(tables, s) == tables.upper(s[0])
  {
    assert s[1..] == "" && tables.upper(s[0]) + "" == tables.upper(s[0]);
  }

  // ---- Waiting between attempts ----

  /** The pause after the n-th attempt, in tenths of a second: 0.1 * 2^(n-1), at most 1 second. */
  function Pause(n: nat): nat
    requires n >= 1
  {
    var doubled := Doubled(n - 1);
    if doubled < 10 then doubled else 10
  }

  function Doubled(n: nat): (r: nat)
    ensures r >= n + 1
  {
    if n == 0 then 1 else 2 * Doubled(n - 1)
  }

  /** The pauses after the first `retries` attempts together. */
  function TotalPause(retries: nat): nat
  {
    if retries == 0 then 0 else TotalPause(retries - 1) + Pause(retries)
  }

  lemma {:induction false} TotalPauseFormula(retries: nat)
    ensures TotalPause(retries) == if retries <= 4 then Doubled(retries) - 1 else 15 + 10 * (retries - 4)
    ensures retries <= 5 ==> TotalPause(retries) <= 25
  {
    if retries > 0 {
      TotalPauseFormula(retries - 1);
      assert Doubled(4) == 16;
      if retries > 4 {
        DoubledGrows(4, retries - 1);
      }
    }
  }

  lemma {:induction false} DoubledGrows(a: nat, b: nat)
    requires a <= b
    ensures Doubled(a) <= Doubled(b)
  {
    if a < b {
      DoubledGrows(a, b - 1);
    }
  }
}
