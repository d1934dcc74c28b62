/** What a provider's replies mean, in terms of their status, their fields and their white space. */
module Replies {
  import opened Wrappers
  import opened Domain
  import opened Upstream

  /** The attempt may go better the next time. */
  predicate Transient(a: Attempt)
  {
    a.TimedOut? || a.TransportError? || (a.Reply? && a.status >= 500)
  }

  /** `t` is `s` without the white space at both ends. */
  ghost predicate Trimmed(s: string, t: string)
  {
    exists i, j :: 0 <= i <= j <= |s| && TrimmedAt(s, t, i, j)
  }

  predicate TrimmedAt(s: string, t: string, i: nat, j: nat)
    requires i <= j <= |s|
  {
    && t == s[i..j]
    && (forall k :: 0 <= k < i ==> Space(s[k])) && (forall k :: j <= k < |s| ==> Space(s[k]))
    && (t != "" ==> !Space(t[0]) && !Space(t[|t| - 1]))
  }

  /** The reply is good and says this. */
  ghost predicate Accepted(a: Attempt, answer: Answer)
  {
    && a.Reply? && a.status < 400 && a.body.Fields? && a.body.countryCode.Some? && a.body.country.Some?
    && var code := a.body.countryCode.value;
       && code.alphabetic && |code.upper| == 2 && answer.countryCode == code.upper
       && Trimmed(a.body.country.value, answer.countryName) && 1 <= |answer.countryName| <= 128
       && answer.provider == "ipinfo"
  }

  /** The attempt fails, or would if it is the last, and this is why. */
  ghost predicate FailsWith(a: Attempt, kind: ProviderError)
  {
    match kind
    case Timeout => a.TimedOut?
    case Unavailable => a.TransportError? || (a.Reply? && a.status >= 500)
    case Authentication => a.Reply? && (a.status == 401 || a.status == 403)
    case RateLimited => a.Reply? && a.status == 429
    case InvalidResponse =>
      && a.Reply? && a.status < 500 && a.status != 401 && a.status != 403 && a.status != 429
      && (a.status >= 400 || forall answer :: !Accepted(a, answer))
  }

  // ---- White space ----

  /** The 29 characters that Python takes for white space. */
  lemma SpaceIsListed(c: char)
    ensures Space(c) <==>
            c as int in {9, 10, 11, 12, 13, 28, 29, 30, 31, 32, 0x85, 0xA0, 0x1680, 0x2000, 0x2001, 0x2002, 0x2003,
                         0x2004, 0x2005, 0x2006, 0x2007, 0x2008, 0x2009, 0x200A, 0x2028, 0x2029, 0x202F, 0x205F,
                         0x3000}
  {
  }

  lemma {:induction false} TrimLeftEnds(s: string) returns (i: nat)
    ensures i <= |s| && TrimLeft(s) == s[i..] && forall k :: 0 <= k < i ==> Space(s[k])
    ensures i < |s| ==> !Space(s[i])
    decreases |s|
  {
    i := 0;
    if s != [] && Space(s[0]) {
      var j := TrimLeftEnds(s[1..]);
      i := j + 1;
      assert s[1..][j..] == s[i..];
      forall k | 0 <= k < i ensures Space(s[k]) {
        if k > 0 { assert s[k] == s[1..][k - 1]; }
      }
    }
  }

  lemma {:induction false} TrimRightEnds(s: string) returns (j: nat)
    ensures j <= |s| && TrimRight(s) == s[..j] && forall k :: j <= k < |s| ==> Space(s[k])
    ensures j > 0 ==> !Space(s[j - 1])
    decreases |s|
  {
    j := |s|;
    if s != [] && Space(s[|s| - 1]) {
      var n := |s| - 1;
      j := TrimRightEnds(s[..n]);
      assert s[..n][..j] == s[..j];
      forall k | j <= k < |s| ensures Space(s[k]) {
        if k < n { assert s[k] == s[..n][k]; }
      }
    }
  }

  lemma StripTrims(s: string)
    ensures Trimmed(s, Strip(s))
  {
    var i := TrimLeftEnds(s);
    var l := TrimRightEnds(s[i..]);
    assert s[i..][..l] == s[i..i + l];
    forall k | i + l <= k < |s| ensures Space(s[k]) {
      assert s[k] == s[i..][k - i];
    }
    if l > 0 {
      assert s[i..][0] == s[i] && s[i..][l - 1] == s[i + l - 1];
    }
    assert TrimmedAt(s, Strip(s), i, i + l);
  }

  /** There is one way to do it. */
  lemma TrimmedIsStrip(s: string, t: string)
    requires Trimmed(s, t)
    ensures t == Strip(s)
  {
    StripTrims(s);
    var i, j :| 0 <= i <= j <= |s| && TrimmedAt(s, t, i, j);
    var i', j' :| 0 <= i' <= j' <= |s| && TrimmedAt(s, Strip(s), i', j');
    if i < j {
      assert !Space(s[i]) && !Space(s[j - 1]);
    }
    if i' < j' {
      assert !Space(s[i']) && !Space(s[j' - 1]);
    }
  }

  // ---- What the verdicts mean ----

  lemma AcceptedIffParsed(a: Attempt, answer: Answer)
    requires a.Reply? && a.status < 400
    ensures Accepted(a, answer) <==> Parse(a.body) == Some(answer)
  {
    if a.body.Fields? && a.body.country.Some? {
      StripTrims(a.body.country.value);
      if Accepted(a, answer) {
        TrimmedIsStrip(a.body.country.value, answer.countryName);
      }
    }
  }

  lemma RejectedIffUnparsed(a: Attempt)
    requires a.Reply? && a.status < 400
    ensures (forall answer :: !Accepted(a, answer)) <==> Parse(a.body).None?
  {
    if Parse(a.body).Some? {
      AcceptedIffParsed(a, Parse(a.body).value);
    } else {
      forall answer ensures !Accepted(a, answer) {
        AcceptedIffParsed(a, answer);
      }
    }
  }

  /** An attempt is worth another one exactly if it timed out, broke down, or was answered by a server error. */
  lemma RetryableIffTransient(a: Attempt)
    ensures Judge(a).Retryable? <==> Transient(a)
  {
  }

  /** It gives an answer exactly if the reply is good and says so. */
  lemma UsableIffAccepted(a: Attempt, answer: Answer)
    ensures Judge(a) == Usable(answer) <==> Accepted(a, answer)
  {
    if a.Reply? && a.status < 400 {
      AcceptedIffParsed(a, answer);
    }
  }

  /** Otherwise it fails, for this reason. */
  lemma FailsForReason(a: Attempt, kind: ProviderError)
    ensures Conclusion(Judge(a)) == Err(ProviderFailure(kind)) <==> FailsWith(a, kind)
  {
    if a.Reply? && a.status < 400 {
      RejectedIffUnparsed(a);
    }
  }

  /** All attempts before the last were transient, and the last is too only if the retries are used up. */
  ghost predicate EndsAfter(attempts: nat -> Attempt, maxRetries: nat, made: nat)
  {
    && 1 <= made <= maxRetries + 1
    && (forall k: nat :: k < made - 1 ==> Transient(attempts(k)))
    && (made <= maxRetries ==> !Transient(attempts(made - 1)))
  }

  lemma MakesIffEndsAfter(attempts: nat -> Attempt, maxRetries: nat, made: nat)
    ensures Makes(attempts, maxRetries, made) <==> EndsAfter(attempts, maxRetries, made)
  {
    if Makes(attempts, maxRetries, made) {
      AttemptsBounded(attempts, maxRetries, made);
      forall k: nat | k < made - 1 ensures Transient(attempts(k)) {
        RetryableIffTransient(attempts(k));
      }
    } else if EndsAfter(attempts, maxRetries, made) {
      forall k: nat | k < made - 1 ensures !StopsAfter(attempts, maxRetries, k) {
        assert Transient(attempts(k));
      }
    }
  }
}
