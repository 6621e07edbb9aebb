/** The operations of Go's `strings` package that the engine uses, on ASCII text. */
module Text {

  predicate IsSpace(c: char) {
    c == ' ' || c == '\t' || c == '\n' || c == '\r' || c == '\U{0B}' || c == '\U{0C}'
  }

  predicate IsUpper(c: char) {
    'A' <= c <= 'Z'
  }

  predicate IsLower(c: char) {
    'a' <= c <= 'z'
  }

  predicate IsDigit(c: char) {
    '0' <= c <= '9'
  }

  predicate IsAlpha(c: char) {
    IsUpper(c) || IsLower(c)
  }

  predicate IsAlnum(c: char) {
    IsAlpha(c) || IsDigit(c)
  }

  predicate HasPrefix(s: string, p: string) {
    |p| <= |s| && s[..|p|] == p
  }

  predicate HasSuffix(s: string, p: string) {
    |p| <= |s| && s[|s| - |p|..] == p
  }

  lemma PrefixAt(s: string, p: string, k: nat)
    requires k < |p|
    ensures HasPrefix(s, p) ==> s[k] == p[k]
  {
    if HasPrefix(s, p) {
      assert s[k] == s[..|p|][k];
    }
  }

  /* ---- letter case ---- */

  function LowerChar(c: char): char {
    if IsUpper(c) then (c as int + 32) as char else c
  }

  function ToLower(s: string): (r: string) {
    seq(|s|, i requires 0 <= i < |s| => LowerChar(s[i]))
  }

  /** Each capital becomes its own small letter. */
  lemma LowerLetters(i: nat)
    requires i < 26
    ensures LowerChar("ABCDEFGHIJKLMNOPQRSTUVWXYZ"[i]) == "abcdefghijklmnopqrstuvwxyz"[i]
  {
    var upper, lower := "ABCDEFGHIJKLMNOPQRSTUVWXYZ", "abcdefghijklmnopqrstuvwxyz";
    assert upper[i] as int == 'A' as int + i && lower[i] as int == 'a' as int + i;
  }

  ghost predicate NoUpper(s: string) {
    forall c :: c in s ==> !IsUpper(c)
  }

  lemma ToLowerFixed(s: string)
    ensures NoUpper(ToLower(s))
    ensures NoUpper(s) ==> ToLower(s) == s
    ensures ToLower(ToLower(s)) == ToLower(s)
  {
    assert forall i :: 0 <= i < |s| ==> ToLower(s)[i] == LowerChar(s[i]);
    if NoUpper(s) {
      assert forall i :: 0 <= i < |s| ==> s[i] in s;
    }
  }

  /* ---- trimming ---- */

  function TrimLeft(s: string): string {
    if s != "" && IsSpace(s[0]) then TrimLeft(s[1..]) else s
  }

  function TrimRight(s: string): string {
    if s != "" && IsSpace(s[|s| - 1]) then TrimRight(s[..|s| - 1]) else s
  }

  function TrimSpace(s: string): string {
    TrimRight(TrimLeft(s))
  }

  function TrimRightSlash(s: string): string {
    if s != "" && s[|s| - 1] == '/' then TrimRightSlash(s[..|s| - 1]) else s
  }

  /** No white space at either end. */
  predicate Trimmed(s: string) {
    s == "" || (!IsSpace(s[0]) && !IsSpace(s[|s| - 1]))
  }

  lemma {:induction false} TrimLeftIsSuffix(s: string)
    ensures var r := TrimLeft(s); HasSuffix(s, r) && (r != "" ==> !IsSpace(r[0]))
    ensures forall c :: c in TrimLeft(s) ==> c in s
  {
    if s != "" && IsSpace(s[0]) {
      TrimLeftIsSuffix(s[1..]);
    }
  }

  lemma {:induction false} TrimRightIsPrefix(s: string)
    ensures var r := TrimRight(s); HasPrefix(s, r) && (r != "" ==> !IsSpace(r[|r| - 1]))
    ensures forall c :: c in TrimRight(s) ==> c in s
  {
    if s != "" && IsSpace(s[|s| - 1]) {
      TrimRightIsPrefix(s[..|s| - 1]);
    }
  }

  lemma TrimSpaceTrims(s: string)
    ensures Trimmed(TrimSpace(s))
    ensures forall c :: c in TrimSpace(s) ==> c in s
  {
    TrimLeftIsSuffix(s);
    TrimRightIsPrefix(TrimLeft(s));
  }

  lemma TrimSpaceFixed(s: string)
    requires Trimmed(s)
    ensures TrimSpace(s) == s
  {
  }

  /** White space after a text that has none at its end is trimmed away. */
  lemma {:induction false} TrimRightDrops(s: string, tail: string)
    requires s == "" || !IsSpace(s[|s| - 1])
    requires forall c :: c in tail ==> IsSpace(c)
    ensures TrimRight(s + tail) == s
  {
    if tail == "" {
      assert s + tail == s;
    } else {
      var all := s + tail;
      assert all[|all| - 1] == tail[|tail| - 1];
      assert all[..|all| - 1] == s + tail[..|tail| - 1];
      TrimRightDrops(s, tail[..|tail| - 1]);
    }
  }

  ghost predicate Blank(s: string) {
    forall c :: c in s ==> IsSpace(c)
  }

  lemma {:induction false} TrimLeftDrops(lead: string, s: string)
    requires Blank(lead)
    requires s == "" || !IsSpace(s[0])
    ensures TrimLeft(lead + s) == s
  {
    if lead == "" {
      assert lead + s == s;
    } else {
      var all := lead + s;
      assert all[0] == lead[0];
      assert all[1..] == lead[1..] + s;
      TrimLeftDrops(lead[1..], s);
    }
  }

  lemma {:induction false} BlankTrims(s: string)
    requires Blank(s)
    ensures TrimLeft(s) == ""
  {
    if s != "" {
      assert s[0] in s;
      BlankTrims(s[1..]);
    }
  }

  /** Trimming is determined by any decomposition into blank, trimmed, blank. */
  lemma TrimSpaceUnique(lead: string, t: string, tail: string)
    requires Blank(lead) && Trimmed(t) && Blank(tail)
    ensures TrimSpace(lead + t + tail) == t
  {
    var all := lead + t + tail;
    if t == "" {
      BlankTrims(all);
    } else {
      assert all == lead + (t + tail);
      TrimLeftDrops(lead, t + tail);
      TrimRightDrops(t, tail);
    }
  }

  lemma {:induction false} TrimRightSplits(s: string) returns (tail: string)
    ensures s == TrimRight(s) + tail && Blank(tail)
  {
    tail := "";
    if s != "" && IsSpace(s[|s| - 1]) {
      var rest := TrimRightSplits(s[..|s| - 1]);
      tail := rest + [s[|s| - 1]];
      assert s == s[..|s| - 1] + [s[|s| - 1]];
    }
  }

  lemma {:induction false} TrimLeftSplits(s: string) returns (lead: string)
    ensures s == lead + TrimLeft(s) && Blank(lead)
  {
    lead := "";
    if s != "" && IsSpace(s[0]) {
      var rest := TrimLeftSplits(s[1..]);
      lead := [s[0]] + rest;
    }
  }

  lemma TrimSpaceSplits(s: string) returns (lead: string, tail: string)
    ensures s == lead + TrimSpace(s) + tail && Blank(lead) && Blank(tail)
  {
    lead := TrimLeftSplits(s);
    tail := TrimRightSplits(TrimLeft(s));
  }

  /** Blank text added or removed at the end does not change what trimming leaves. */
  lemma TrimSpaceIgnoresTail(s: string, tail: string)
    requires Blank(tail)
    ensures TrimSpace(s + tail) == TrimSpace(s)
  {
    var a, b := TrimSpaceSplits(s);
    TrimSpaceTrims(s);
    assert s + tail == a + TrimSpace(s) + (b + tail);
    TrimSpaceUnique(a, TrimSpace(s), b + tail);
  }

  /** What follows a character that is no white space is trimmed on its own. */
  lemma TrimRightKeeps(s: string, rest: string)
    requires s != "" && !IsSpace(s[|s| - 1])
    ensures TrimRight(s + rest) == s + TrimRight(rest)
  {
    var tail := TrimRightSplits(rest);
    TrimRightIsPrefix(rest);
    var kept := s + TrimRight(rest);
    assert s + rest == kept + tail;
    TrimRightDrops(kept, tail);
  }

  lemma {:induction false} TrimRightSlashIsPrefix(s: string)
    ensures var r := TrimRightSlash(s); HasPrefix(s, r) && (r != "" ==> r[|r| - 1] != '/')
  {
    if s != "" && s[|s| - 1] == '/' {
      TrimRightSlashIsPrefix(s[..|s| - 1]);
    }
  }

  /** Lower-casing moves no white space. */
  lemma TrimSpaceLower(s: string)
    ensures TrimSpace(ToLower(s)) == ToLower(TrimSpace(s))
  {
    hide TrimSpace;
    var a, b := TrimSpaceSplits(s);
    var t := TrimSpace(s);
    TrimSpaceTrims(s);
    assert forall i :: 0 <= i < |a| ==> a[i] in a;
    assert forall i :: 0 <= i < |b| ==> b[i] in b;
    assert ToLower(s) == ToLower(a) + ToLower(t) + ToLower(b);
    TrimSpaceUnique(ToLower(a), ToLower(t), ToLower(b));
  }

  lemma {:induction false} TrimRightSlashLower(s: string)
    ensures TrimRightSlash(ToLower(s)) == ToLower(TrimRightSlash(s))
  {
    if s != "" && s[|s| - 1] == '/' {
      assert ToLower(s)[..|s| - 1] == ToLower(s[..|s| - 1]);
      TrimRightSlashLower(s[..|s| - 1]);
    }
  }

  /* ---- searching and splitting ---- */

  /** Position of the first `c` in `s`, or -1. */
  function IndexOf(s: string, c: char): (i: int)
    ensures -1 <= i < |s|
    ensures i == -1 <==> c !in s
    ensures i != -1 ==> s[i] == c && c !in s[..i]
  {
    if s == "" then -1
    else if s[0] == c then 0
    else
      var k := IndexOf(s[1..], c);
      if k == -1 then -1 else
        assert s[..k + 1] == [s[0]] + s[1..][..k];
        k + 1
  }

  /** Lower-casing moves no sign. */
  lemma IndexOfLower(s: string, c: char)
    requires !IsUpper(c) && !IsLower(c)
    ensures IndexOf(ToLower(s), c) == IndexOf(s, c)
  {
    var t := ToLower(s);
    assert forall k :: 0 <= k < |s| ==> (t[k] == c <==> s[k] == c);
    var i, j := IndexOf(t, c), IndexOf(s, c);
    assert i != -1 ==> s[i] == c && forall k :: 0 <= k < i ==> t[..i][k] != c;
    assert j != -1 ==> t[j] == c && forall k :: 0 <= k < j ==> s[..j][k] != c;
  }

  /** The first `c` of `a + [c] + b` is the one in the middle when `a` holds none. */
  lemma IndexOfAfter(a: string, c: char, b: string)
    requires c !in a
    ensures IndexOf(a + [c] + b, c) == |a|
  {
    var s := a + [c] + b;
    assert s[|a|] == c;
    var i := IndexOf(s, c);
    assert i >= |a| by {
      assert s[..|a|] == a;
    }
    assert i <= |a| by {
      assert forall k :: 0 <= k < i ==> s[k] in s[..i];
    }
  }

  function Split(s: string, c: char): (parts: seq<string>)
    ensures |parts| >= 1
    ensures forall p :: p in parts ==> c !in p
    ensures forall p, x :: p in parts && x in p ==> x in s
    decreases |s|
  {
    var i := IndexOf(s, c);
    if i == -1 then [s] else [s[..i]] + Split(s[i + 1..], c)
  }

  lemma SplitNone(s: string, c: char)
    requires c !in s
    ensures Split(s, c) == [s]
  {
  }

  lemma SplitCons(a: string, c: char, rest: string)
    requires c !in a
    ensures Split(a + [c] + rest, c) == [a] + Split(rest, c)
  {
    IndexOfAfter(a, c, rest);
    var s := a + [c] + rest;
    assert s[..|a|] == a && s[|a| + 1..] == rest;
  }

  /** Every character is the separator or belongs to a piece. */
  lemma {:induction false} SplitCovers(s: string, c: char, x: char)
    requires x in s && x != c
    ensures exists p :: p in Split(s, c) && x in p
    decreases |s|
  {
    var i := IndexOf(s, c);
    if i == -1 {
      assert Split(s, c) == [s];
      assert s in Split(s, c);
    } else if x in s[..i] {
      assert Split(s, c)[0] == s[..i];
    } else {
      assert s == s[..i] + [c] + s[i + 1..];
      SplitCovers(s[i + 1..], c, x);
      var p :| p in Split(s[i + 1..], c) && x in p;
      assert p in Split(s, c);
    }
  }

  /* ---- byte-wise order ---- */

  predicate StrLess(a: string, b: string) {
    if b == "" then false
    else if a == "" then true
    else if a[0] != b[0] then a[0] < b[0]
    else StrLess(a[1..], b[1..])
  }

  /** The smaller text is a proper prefix, or has the smaller character where the two first differ. */
  lemma {:induction false} StrLessIff(a: string, b: string)
    ensures StrLess(a, b) <==> exists k: nat :: FirstSmaller(a, b, k)
  {
    if b == "" {
    } else if a == "" {
      assert FirstSmaller(a, b, 0);
    } else if a[0] != b[0] {
      assert a[0] < b[0] ==> FirstSmaller(a, b, 0);
    } else {
      StrLessIff(a[1..], b[1..]);
      if StrLess(a[1..], b[1..]) {
        var k: nat :| FirstSmaller(a[1..], b[1..], k);
        assert FirstSmaller(a, b, k + 1);
      }
      forall k: nat | FirstSmaller(a, b, k) ensures StrLess(a[1..], b[1..]) {
        assert FirstSmaller(a[1..], b[1..], k - 1);
      }
    }
  }

  predicate FirstSmaller(a: string, b: string, k: nat) {
    k <= |a| && k < |b| && (forall i :: 0 <= i < k ==> a[i] == b[i]) && (k == |a| || a[k] < b[k])
  }

  lemma {:induction false} StrLessTotal(a: string, b: string)
    ensures !StrLess(a, b) && !StrLess(b, a) ==> a == b
    ensures !(StrLess(a, b) && StrLess(b, a))
  {
    if a != "" && b != "" && a[0] == b[0] {
      StrLessTotal(a[1..], b[1..]);
      assert a == [a[0]] + a[1..] && b == [b[0]] + b[1..];
    }
  }

  lemma {:induction false} StrLessTransitive(a: string, b: string, c: string)
    requires StrLess(a, b) && StrLess(b, c)
    ensures StrLess(a, c)
  {
    if a != "" && a[0] == b[0] == c[0] {
      StrLessTransitive(a[1..], b[1..], c[1..]);
    }
  }
}
