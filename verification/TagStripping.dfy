/** Sanitising notification text: cap the length, then remove every tag in one pass.

    Texts are bytes, as the caps count bytes. A tag is what the pattern "<[^>]*>" matches: from a
    "<" through the next ">". Both are ASCII, so no other UTF-8 character contains them. */
module TagStripping {
  import opened Prelude

  const LT: byte := 60
  const GT: byte := 62
  const SUMMARY_CAP: nat := 512
  const BODY_CAP: nat := 2048

  /** The position of the first ">", or the length. */
  function FirstClose(s: Bytes): (n: nat)
    ensures n <= |s| && GT !in s[..n] && (n < |s| ==> s[n] == GT)
  {
    if s == [] || s[0] == GT then 0
    else
      var n := FirstClose(s[1..]);
      assert s[..n + 1] == [s[0]] + s[1..][..n];
      n + 1
  }

  /** The text with all matches of the pattern, found from left to right, removed. */
  function Sanitize(s: Bytes): Bytes
    decreases |s|
  {
    if s == [] then []
    else if s[0] == LT && FirstClose(s) < |s| then Sanitize(s[FirstClose(s) + 1..])
    else [s[0]] + Sanitize(s[1..])
  }

  // ------------------------------------------------- what is removed, declared

  /** Position `i` lies in a tag: a "<" at or before it has no ">" in between, and a ">" follows. */
  ghost predicate InTag(s: Bytes, i: int) {
    && 0 <= i < |s|
    && 62 in s[i..]
    && exists p :: 0 <= p <= i && OpensTo(s, p, i)
  }

  /** A "<" at `p` reaches position `i` without a ">" before it. */
  ghost predicate OpensTo(s: Bytes, p: int, i: int) {
    0 <= p <= i < |s| && s[p] == 60 && 62 !in s[p..i]
  }

  /** The bytes from `i` on that lie in no tag. */
  ghost function Outside(s: Bytes, i: nat): Bytes
    decreases |s| - i
  {
    if i >= |s| then []
    else if InTag(s, i) then Outside(s, i + 1)
    else [s[i]] + Outside(s, i + 1)
  }

  /** Some "<" is followed, anywhere later, by a ">". */
  ghost predicate HasTag(s: Bytes) {
    exists i, j :: 0 <= i < j < |s| && s[i] == 60 && s[j] == 62
  }

  /** A "<" before position `k` that was kept has no ">" after it. */
  ghost predicate KeptAreUnclosed(s: Bytes, k: nat) {
    forall p :: 0 <= p < k && OpensTo(s, p, k) ==> GT !in s[k..]
  }

  lemma CloseIn(s: Bytes, k: nat)
    requires k <= |s|
    ensures var n := FirstClose(s[k..]);
            && (GT in s[k..] <==> k + n < |s|)
            && k + n <= |s| && GT !in s[k..k + n]
            && (k + n < |s| ==> s[k + n] == GT)
  {
    var n := FirstClose(s[k..]);
    assert s[k..k + n] == s[k..][..n];
    if n < |s[k..]| {
      assert s[k..][n] == GT;
    } else {
      assert s[k..][..n] == s[k..];
    }
  }

  /** Each position of a tag lies in the tag. */
  lemma InTagUpTo(s: Bytes, k: nat, i: nat, end: nat)
    requires k <= i <= end < |s| && s[k] == LT && s[end] == GT && GT !in s[k..end]
    ensures InTag(s, i)
  {
    assert s[i..][end - i] == GT;
    assert GT !in s[k..i] by { assert s[k..i] == s[k..end][..i - k]; }
    assert OpensTo(s, k, i);
  }

  /** So all of a tag is passed over. */
  lemma {:induction false} TagSkipped(s: Bytes, k: nat, i: nat, end: nat)
    requires k <= i <= end < |s| && s[k] == LT && s[end] == GT && GT !in s[k..end]
    ensures Outside(s, i) == Outside(s, end + 1)
    decreases end - i
  {
    InTagUpTo(s, k, i, end);
    if i < end {
      TagSkipped(s, k, i + 1, end);
    }
  }

  lemma AfterClose(s: Bytes, next: nat)
    requires 0 < next <= |s| && s[next - 1] == GT
    ensures KeptAreUnclosed(s, next)
  {
    forall p | 0 <= p < next ensures !OpensTo(s, p, next) {
      assert s[p..next][next - 1 - p] == GT;
    }
  }

  lemma FromTag(s: Bytes, k: nat, n: nat)
    requires k < |s| && s[k] == LT && n == FirstClose(s[k..]) && k + n < |s|
    requires Sanitize(s[k + n + 1..]) == Outside(s, k + n + 1)
    ensures Sanitize(s[k..]) == Outside(s, k)
  {
    SanitizeTag(s[k..]);
    assert s[k..][n + 1..] == s[k + n + 1..];
    CloseIn(s, k);
    TagSkipped(s, k, k, k + n);
  }

  lemma SanitizeTag(t: Bytes)
    requires t != [] && t[0] == LT && FirstClose(t) < |t|
    ensures Sanitize(t) == Sanitize(t[FirstClose(t) + 1..])
  {
  }

  lemma Shorter(s: Bytes, p: int, k: int)
    requires 0 <= p <= k && OpensTo(s, p, k + 1)
    ensures p < k + 1 && OpensTo(s, p, k)
  {
    assert s[p..k] == s[p..k + 1][..k - p];
  }

  lemma KeptStep(s: Bytes, k: nat)
    requires k < |s| && !(s[k] == LT && GT in s[k..]) && KeptAreUnclosed(s, k)
    ensures !InTag(s, k) && KeptAreUnclosed(s, k + 1)
  {
    forall p | 0 <= p <= k && OpensTo(s, p, k) ensures GT !in s[k..] {}
    var n := k + 1;
    forall p | 0 <= p < n && OpensTo(s, p, n) ensures GT !in s[n..] {
      Shorter(s, p, k);
      assert forall c :: c in s[n..] ==> c in s[k..];
    }
  }

  lemma FromKept(s: Bytes, k: nat)
    requires k < |s| && !(s[k] == LT && k + FirstClose(s[k..]) < |s|) && !InTag(s, k)
    requires Sanitize(s[k + 1..]) == Outside(s, k + 1)
    ensures Sanitize(s[k..]) == Outside(s, k)
  {
    var t := s[k..];
    assert t[1..] == s[k + 1..] && t[0] == s[k];
  }

  lemma {:induction false} SanitizeFrom(s: Bytes, k: nat)
    requires k <= |s| && KeptAreUnclosed(s, k)
    ensures Sanitize(s[k..]) == Outside(s, k)
    decreases |s| - k
  {
    if k < |s| {
      var n := FirstClose(s[k..]);
      CloseIn(s, k);
      if s[k] == LT && k + n < |s| {
        AfterClose(s, k + n + 1);
        SanitizeFrom(s, k + n + 1);
        FromTag(s, k, n);
      } else {
        KeptStep(s, k);
        SanitizeFrom(s, k + 1);
        FromKept(s, k);
      }
    }
  }

  /** The one-pass remover keeps exactly the bytes that lie in no tag. */
  lemma SanitizeKeepsOutside(s: Bytes)
    ensures Sanitize(s) == Outside(s, 0)
  {
    assert s[0..] == s;
    SanitizeFrom(s, 0);
  }

  // ------------------------------------------------------------ main results

  lemma {:induction false} SubsequenceCons(a: Bytes, b: Bytes, x: byte)
    requires IsSubsequence(a, b)
    ensures IsSubsequence(a, [x] + b)
    ensures IsSubsequence([x] + a, [x] + b)
    decreases |b|
  {
    var b' := [x] + b;
    if b == [] {
      assert b' == [x] && b'[..0] == [];
      assert ([x] + a)[..0] == [];
    } else {
      var b0 := b[..|b| - 1];
      assert b'[..|b'| - 1] == [x] + b0;
      if a == [] {
        assert IsSubsequence([], b0);
        SubsequenceCons([], b0, x);
        assert [x] + a == [x] + [];
      } else if IsSubsequence(a, b0) {
        SubsequenceCons(a, b0, x);
      } else {
        SubsequenceCons(a[..|a| - 1], b0, x);
        assert ([x] + a)[..|[x] + a| - 1] == [x] + a[..|a| - 1];
      }
    }
  }

  lemma {:induction false} SubsequencePrepend(a: Bytes, before: Bytes, b: Bytes)
    requires IsSubsequence(a, b)
    ensures IsSubsequence(a, before + b)
  {
    if before == [] {
      assert before + b == b;
    } else {
      SubsequencePrepend(a, before[1..], b);
      SubsequenceCons(a, before[1..] + b, before[0]);
      assert before + b == [before[0]] + (before[1..] + b);
    }
  }

  lemma {:induction false} SanitizeIsSubsequence(s: Bytes)
    ensures IsSubsequence(Sanitize(s), s)
    decreases |s|
  {
    if s != [] {
      if s[0] == LT && FirstClose(s) < |s| {
        var n := FirstClose(s) + 1;
        SanitizeIsSubsequence(s[n..]);
        SubsequencePrepend(Sanitize(s[n..]), s[..n], s[n..]);
        assert s[..n] + s[n..] == s;
      } else {
        SanitizeIsSubsequence(s[1..]);
        SubsequenceCons(Sanitize(s[1..]), s[1..], s[0]);
        assert [s[0]] + s[1..] == s;
      }
    }
  }

  lemma {:induction false} SanitizeHasNoTag(s: Bytes)
    ensures !HasTag(Sanitize(s))
    decreases |s|
  {
    if s != [] {
      if s[0] == LT && FirstClose(s) < |s| {
        SanitizeHasNoTag(s[FirstClose(s) + 1..]);
      } else {
        var rest := Sanitize(s[1..]);
        SanitizeHasNoTag(s[1..]);
        if s[0] == LT {
          assert s[..|s|] == s;
          SanitizeIsSubsequence(s[1..]);
          SubsequenceMembers(rest, s[1..]);
          assert GT !in rest;
        }
        forall i, j | 0 <= i < j < |[s[0]] + rest| ensures !(([s[0]] + rest)[i] == LT && ([s[0]] + rest)[j] == GT) {
          assert ([s[0]] + rest)[j] == rest[j - 1];
        }
      }
    }
  }

  lemma {:induction false} UntaggedUnchanged(s: Bytes)
    requires !HasTag(s)
    ensures Sanitize(s) == s
  {
    if s != [] {
      var n := FirstClose(s);
      assert n < |s| ==> s[n] == GT;
      assert !HasTag(s[1..]) by {
        forall i, j | 0 <= i < j < |s[1..]| ensures !(s[1..][i] == LT && s[1..][j] == GT) {
          assert s[1..][i] == s[i + 1] && s[1..][j] == s[j + 1];
        }
      }
      UntaggedUnchanged(s[1..]);
    }
  }

  /** Tag stripping, for every text: the result has no "<" followed by a ">", keeps the order of what
      it keeps, is not changed by a second pass, and is the text itself exactly when that has no tag. */
  lemma StripsTags(s: Bytes)
    ensures !HasTag(Sanitize(s))
    ensures IsSubsequence(Sanitize(s), s)
    ensures Sanitize(Sanitize(s)) == Sanitize(s)
    ensures Sanitize(s) == s <==> !HasTag(s)
  {
    SanitizeHasNoTag(s);
    SanitizeIsSubsequence(s);
    UntaggedUnchanged(Sanitize(s));
    if !HasTag(s) {
      UntaggedUnchanged(s);
    }
  }

  // ------------------------------------------------------- the code in place

  datatype Request = Request(appName: Bytes, summary: Bytes, body: Bytes)

  /** The kept text is the whole text, or its first `cap` bytes if it is longer. */
  ghost predicate IsFirst(kept: Bytes, s: Bytes, cap: nat) {
    kept <= s && |kept| <= cap && (|kept| == |s| || |kept| == cap)
  }

  /** The sanitising steps of sending a notification. */
  method Prepare(incoming: Request) returns (req: Request)
    ensures req.appName == incoming.appName
    ensures |req.summary| <= 512 && |req.body| <= 2048
    ensures !HasTag(req.summary) && !HasTag(req.body)
    ensures exists kept :: IsFirst(kept, incoming.summary, 512) && req.summary == Outside(kept, 0)
                           && IsSubsequence(req.summary, kept)
    ensures exists kept :: IsFirst(kept, incoming.body, 2048) && req.body == Outside(kept, 0)
                           && IsSubsequence(req.body, kept)
  {
    req := incoming;
    if |req.summary| > SUMMARY_CAP {
      req := req.(summary := req.summary[..SUMMARY_CAP]);
    }
    if |req.body| > BODY_CAP {
      req := req.(body := req.body[..BODY_CAP]);
    }
    assert IsFirst(req.summary, incoming.summary, 512) && IsFirst(req.body, incoming.body, 2048);
    StripsTags(req.summary);
    StripsTags(req.body);
    SanitizeKeepsOutside(req.summary);
    SanitizeKeepsOutside(req.body);
    SubsequenceLength(Sanitize(req.summary), req.summary);
    SubsequenceLength(Sanitize(req.body), req.body);
    req := req.(summary := Sanitize(req.summary));
    req := req.(body := Sanitize(req.body));
  }
}
