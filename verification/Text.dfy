/** String functions of the Go standard library that several components use. */
module Text {

  /** Go's `unicode.IsSpace`. */
  predicate IsSpace(c: char) {
    || c == '\t' || c == '\n' || c == '\U{0B}' || c == '\U{0C}' || c == '\r' || c == ' '
    || c == '\U{85}' || c == '\U{A0}' || c == '\U{1680}' || '\U{2000}' <= c <= '\U{200A}'
    || c == '\U{2028}' || c == '\U{2029}' || c == '\U{202F}' || c == '\U{205F}' || c == '\U{3000}'
  }

  function TrimLeft(s: string): (t: string)
    ensures t == "" || !IsSpace(t[0])
  {
    if s != "" && IsSpace(s[0]) then TrimLeft(s[1..]) else s
  }

  function TrimRight(s: string): (t: string)
    ensures t <= s
    ensures t == "" || !IsSpace(t[|t| - 1])
  {
    if s != "" && IsSpace(s[|s| - 1]) then TrimRight(s[..|s| - 1]) else s
  }

  /** `strings.TrimSpace`. */
  function TrimSpace(s: string): (t: string)
    ensures t == "" || (!IsSpace(t[0]) && !IsSpace(t[|t| - 1]))
  {
    TrimRight(TrimLeft(s))
  }

  predicate AllSpace(s: string) {
    forall i :: 0 <= i < |s| ==> IsSpace(s[i])
  }

  lemma {:induction false} TrimLeftDrops(s: string) returns (left: string)
    ensures s == left + TrimLeft(s) && AllSpace(left)
  {
    left := "";
    if s != "" && IsSpace(s[0]) {
      left := TrimLeftDrops(s[1..]);
      left := [s[0]] + left;
    }
  }

  lemma {:induction false} TrimRightDrops(s: string) returns (right: string)
    ensures s == TrimRight(s) + right && AllSpace(right)
  {
    right := "";
    if s != "" && IsSpace(s[|s| - 1]) {
      right := TrimRightDrops(s[..|s| - 1]);
      right := right + [s[|s| - 1]];
      assert s == s[..|s| - 1] + [s[|s| - 1]];
    }
  }

  /** Trimming removes white space at the two ends and nothing else. */
  lemma TrimSpaceKeepsCore(s: string) returns (left: string, right: string)
    ensures s == left + TrimSpace(s) + right && AllSpace(left) && AllSpace(right)
  {
    left := TrimLeftDrops(s);
    right := TrimRightDrops(TrimLeft(s));
    assert left + (TrimSpace(s) + right) == left + TrimSpace(s) + right;
  }

  /** Nothing, or something that neither begins nor ends with white space. */
  predicate IsTrimmed(s: string) {
    s == "" || (!IsSpace(s[0]) && !IsSpace(s[|s| - 1]))
  }

  lemma {:induction false} TrimLeftFinds(left: string, rest: string)
    requires AllSpace(left) && (rest == "" || !IsSpace(rest[0]))
    ensures TrimLeft(left + rest) == rest
  {
    if left == "" {
      assert left + rest == rest;
    } else {
      assert (left + rest)[1..] == left[1..] + rest;
      TrimLeftFinds(left[1..], rest);
    }
  }

  lemma {:induction false} TrimRightFinds(core: string, right: string)
    requires AllSpace(right) && (core == "" || !IsSpace(core[|core| - 1]))
    ensures TrimRight(core + right) == core
    decreases |right|
  {
    if right == "" {
      assert core + right == core;
    } else {
      assert (core + right)[..|core + right| - 1] == core + right[..|right| - 1];
      TrimRightFinds(core, right[..|right| - 1]);
    }
  }

  /** Trimming finds exactly the core: whatever white space surrounds it. */
  lemma TrimSpaceFinds(left: string, core: string, right: string)
    requires AllSpace(left) && AllSpace(right) && IsTrimmed(core) && core != ""
    ensures TrimSpace(left + core + right) == core
  {
    assert left + core + right == left + (core + right);
    TrimLeftFinds(left, core + right);
    TrimRightFinds(core, right);
  }

  predicate Without(s: string, separator: char) {
    forall i :: 0 <= i < |s| ==> s[i] != separator
  }

  /** `strings.Split(s, separator)` for a separator of one character. */
  function SplitOn(s: string, separator: char): (parts: seq<string>)
    ensures |parts| >= 1
    ensures forall i :: 0 <= i < |parts| ==> Without(parts[i], separator)
  {
    if s == "" then [""]
    else
      var rest := SplitOn(s[1..], separator);
      if s[0] == separator then [""] + rest else [[s[0]] + rest[0]] + rest[1..]
  }

  lemma {:induction false} SplitOnHead(a: string, s: string, separator: char)
    requires Without(a, separator)
    ensures SplitOn(a + [separator] + s, separator) == [a] + SplitOn(s, separator)
  {
    if a == "" {
      assert (a + [separator] + s)[1..] == s;
    } else {
      assert (a + [separator] + s)[1..] == a[1..] + [separator] + s;
      SplitOnHead(a[1..], s, separator);
      var rest := SplitOn(a[1..] + [separator] + s, separator);
      assert rest[0] == a[1..] && rest[1..] == SplitOn(s, separator);
      assert [a[0]] + a[1..] == a;
    }
  }

  lemma {:induction false} SplitOnNothing(a: string, separator: char)
    requires Without(a, separator)
    ensures SplitOn(a, separator) == [a]
  {
    if a != "" {
      SplitOnNothing(a[1..], separator);
      assert [a[0]] + a[1..] == a;
    }
  }

  /** `strings.HasPrefix(s, prefix)`. */
  predicate HasPrefix(s: string, prefix: string) {
    prefix <= s
  }

  /** `len(s)`: the number of bytes of the UTF-8 form. */
  function ByteLength(s: string): (n: nat)
    ensures |s| <= n <= 4 * |s|
  {
    if s == "" then 0
    else
      (if s[0] < '\U{80}' then 1 else if s[0] < '\U{800}' then 2 else if s[0] < '\U{10000}' then 3 else 4)
      + ByteLength(s[1..])
  }
}
