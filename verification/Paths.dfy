/** Slash-separated object keys: splitting, joining and the lexical cleaning that
    Go's `path.Join` performs, and the key under which a blob is stored. */
module Paths {
  import opened Text

  /** True of a string that can be one component of a path. */
  predicate NoSlash(s: string) {
    Without(s, '/')
  }

  predicate AllNoSlash(parts: seq<string>) {
    forall i :: 0 <= i < |parts| ==> NoSlash(parts[i])
  }

  /** A component that cleaning leaves alone. */
  predicate IsName(s: string) {
    s != "" && s != "." && s != ".." && NoSlash(s)
  }

  predicate AllNames(parts: seq<string>) {
    forall i :: 0 <= i < |parts| ==> IsName(parts[i])
  }

  /** `strings.Split(s, "/")`. */
  function Split(s: string): (parts: seq<string>)
    ensures |parts| >= 1
    ensures AllNoSlash(parts)
  {
    SplitOn(s, '/')
  }

  /** `strings.Join(parts, "/")`. */
  function JoinSlash(parts: seq<string>): string {
    if |parts| == 0 then ""
    else if |parts| == 1 then parts[0]
    else parts[0] + "/" + JoinSlash(parts[1..])
  }

  /** Joining and then splitting gives back the components. */
  lemma {:induction false} SplitJoin(parts: seq<string>)
    requires |parts| >= 1 && AllNoSlash(parts)
    ensures Split(JoinSlash(parts)) == parts
  {
    if |parts| == 1 {
      SplitOnNothing(parts[0], '/');
    } else {
      SplitJoin(parts[1..]);
      SplitOnHead(parts[0], JoinSlash(parts[1..]), '/');
    }
  }

  /** Splitting and then joining gives back the string. */
  lemma {:induction false} JoinSplit(s: string)
    ensures JoinSlash(Split(s)) == s
  {
    if s != "" {
      JoinSplit(s[1..]);
      var rest := Split(s[1..]);
      if s[0] == '/' {
        assert ([""] + rest)[1..] == rest;
      } else {
        assert ([[s[0]] + rest[0]] + rest[1..])[1..] == rest[1..];
      }
    }
  }

  // ---- cleaning ----

  /** One component arriving on the stack of components kept so far. */
  function Push(stack: seq<string>, part: string): seq<string> {
    if part == "" || part == "." then stack
    else if part == ".." && |stack| > 0 && stack[|stack| - 1] != ".." then stack[..|stack| - 1]
    else stack + [part]
  }

  function PushAll(stack: seq<string>, parts: seq<string>): seq<string>
    decreases |parts|
  {
    if parts == [] then stack
    else Push(PushAll(stack, parts[..|parts| - 1]), parts[|parts| - 1])
  }

  /** `path.Clean` of a relative path given by its components. */
  function Clean(parts: seq<string>): string {
    var kept := PushAll([], parts);
    if kept == [] then "." else JoinSlash(kept)
  }

  lemma {:induction false} KeptNoSlash(stack: seq<string>, parts: seq<string>)
    requires AllNoSlash(stack) && AllNoSlash(parts)
    ensures AllNoSlash(PushAll(stack, parts))
    decreases |parts|
  {
    if parts != [] {
      KeptNoSlash(stack, parts[..|parts| - 1]);
    }
  }

  lemma {:induction false} PushAllAppend(stack: seq<string>, left: seq<string>, right: seq<string>)
    ensures PushAll(stack, left + right) == PushAll(PushAll(stack, left), right)
    decreases |right|
  {
    if right == [] {
      assert left + right == left;
    } else {
      var all := left + right;
      assert all[..|all| - 1] == left + right[..|right| - 1];
      PushAllAppend(stack, left, right[..|right| - 1]);
    }
  }

  lemma {:induction false} TopIsPlain(stack: seq<string>, parts: seq<string>)
    requires forall i :: 0 <= i < |stack| ==> stack[i] != "" && stack[i] != "."
    ensures forall i :: 0 <= i < |PushAll(stack, parts)| ==>
              PushAll(stack, parts)[i] != "" && PushAll(stack, parts)[i] != "."
    decreases |parts|
  {
    if parts != [] {
      TopIsPlain(stack, parts[..|parts| - 1]);
    }
  }

  /** Cleaning a tail before appending it changes nothing. */
  lemma {:induction false} CleanTailFirst(stack: seq<string>, parts: seq<string>)
    ensures PushAll(stack, PushAll([], parts)) == PushAll(stack, parts)
    decreases |parts|
  {
    if parts != [] {
      var init, last := parts[..|parts| - 1], parts[|parts| - 1];
      CleanTailFirst(stack, init);
      var kept := PushAll([], init);
      if last == "" || last == "." {
      } else if last == ".." && |kept| > 0 && kept[|kept| - 1] != ".." {
        var top := kept[|kept| - 1];
        TopIsPlain([], init);
        assert PushAll(stack, kept) == PushAll(stack, kept[..|kept| - 1]) + [top];
      } else {
        assert (kept + [last])[..|kept|] == kept;
      }
    }
  }

  /** What cleaning keeps: no empty and no "." component, and ".." only in front. */
  lemma {:induction false} CleanedForm(parts: seq<string>)
    ensures forall i :: 0 <= i < |PushAll([], parts)| ==>
              PushAll([], parts)[i] != "" && PushAll([], parts)[i] != "."
    ensures forall i, j :: 0 <= i < j < |PushAll([], parts)| && PushAll([], parts)[j] == ".." ==>
              PushAll([], parts)[i] == ".."
    decreases |parts|
  {
    if parts != [] {
      CleanedForm(parts[..|parts| - 1]);
    }
  }

  /** A component that is not "..", followed by "..", goes without a trace. */
  lemma UpCancels(stack: seq<string>, part: string)
    requires part != "" && part != "." && part != ".."
    ensures PushAll(stack, [part, ".."]) == stack
  {
    assert [part, ".."][..1] == [part] && [part][..0] == [];
    assert PushAll(stack, [part]) == stack + [part];
    assert (stack + [part])[..|stack|] == stack;
  }

  lemma {:induction false} NamesAreKept(stack: seq<string>, parts: seq<string>)
    requires AllNames(parts)
    ensures PushAll(stack, parts) == stack + parts
    decreases |parts|
  {
    if parts != [] {
      NamesAreKept(stack, parts[..|parts| - 1]);
      assert parts == parts[..|parts| - 1] + [parts[|parts| - 1]];
    }
  }

  function NonEmpty(elements: seq<string>): (present: seq<string>) {
    if elements == [] then []
    else if elements[0] == "" then NonEmpty(elements[1..])
    else [elements[0]] + NonEmpty(elements[1..])
  }

  /** `path.Join` of elements none of which starts with a slash: empty elements are
      dropped, the rest are joined and cleaned. */
  function JoinPath(elements: seq<string>): string {
    var present := NonEmpty(elements);
    if present == [] then "" else Clean(Split(JoinSlash(present)))
  }

  /** Empty components make no difference to cleaning. */
  lemma {:induction false} EmptyPartsDropped(stack: seq<string>, parts: seq<string>)
    ensures PushAll(stack, NonEmpty(parts)) == PushAll(stack, parts)
    decreases |parts|
  {
    if parts == [] {
    } else {
      var head, tail := [parts[0]], parts[1..];
      assert parts == head + tail;
      PushAllAppend(stack, head, tail);
      assert head[..0] == [];
      assert PushAll(stack, head) == Push(stack, parts[0]);
      EmptyPartsDropped(Push(stack, parts[0]), tail);
      if parts[0] != "" {
        PushAllAppend(stack, head, NonEmpty(tail));
      }
    }
  }

  lemma {:induction false} NonEmptyNoSlash(parts: seq<string>)
    requires AllNoSlash(parts)
    ensures AllNoSlash(NonEmpty(parts))
  {
    if parts != [] {
      NonEmptyNoSlash(parts[1..]);
    }
  }

  // ---- object keys ----

  /** The object key of a stored blob. */
  function PutKey(bucket: string, userKey: string, fileKey: string): string {
    JoinPath([bucket, userKey, fileKey])
  }

  lemma {:induction false} NonEmptyKeepsAll(elements: seq<string>)
    requires forall i :: 0 <= i < |elements| ==> elements[i] != ""
    ensures NonEmpty(elements) == elements
  {
    if elements != [] {
      NonEmptyKeepsAll(elements[1..]);
    }
  }

  lemma JoinThree(a: string, b: string, c: string)
    ensures JoinSlash([a, b, c]) == a + "/" + (b + "/" + c)
  {
    assert [a, b, c][1..] == [b, c];
    assert JoinSlash([b, c]) == b + "/" + c by {
      assert [b, c][1..] == [c];
    }
  }

  lemma SplitFirst(a: string, tail: string)
    requires NoSlash(a)
    ensures Split(a + "/" + tail) == [a] + Split(tail)
  {
    SplitOnHead(a, tail, '/');
  }

  lemma SplitThree(a: string, b: string, c: string)
    requires NoSlash(a) && NoSlash(b)
    ensures Split(JoinSlash([a, b, c])) == [a, b] + Split(c)
  {
    JoinThree(a, b, c);
    SplitFirst(a, b + "/" + c);
    SplitFirst(b, c);
    assert [a] + ([b] + Split(c)) == [a, b] + Split(c);
  }

  /** The key is the cleaned sequence of the parts' components. */
  lemma PutKeyParts(bucket: string, userKey: string, fileKey: string)
    requires bucket != "" && userKey != "" && fileKey != "" && NoSlash(bucket) && NoSlash(userKey)
    ensures PutKey(bucket, userKey, fileKey) == Clean([bucket, userKey] + Split(fileKey))
  {
    var elements := [bucket, userKey, fileKey];
    NonEmptyKeepsAll(elements);
    SplitThree(bucket, userKey, fileKey);
  }

  /** With a plain file name the key is the three parts with slashes between them. */
  lemma PutKeyPlain(bucket: string, userKey: string, fileKey: string)
    requires IsName(bucket) && IsName(userKey) && IsName(fileKey)
    ensures PutKey(bucket, userKey, fileKey) == bucket + "/" + userKey + "/" + fileKey
    ensures Split(PutKey(bucket, userKey, fileKey)) == [bucket, userKey, fileKey]
  {
    PutKeyParts(bucket, userKey, fileKey);
    SplitOnNothing(fileKey, '/');
    var parts := [bucket, userKey, fileKey];
    assert [bucket, userKey] + [fileKey] == parts;
    NamesAreKept([], parts);
    assert [] + parts == parts;
    SplitJoin(parts);
    JoinThree(bucket, userKey, fileKey);
    assert bucket + "/" + (userKey + "/" + fileKey) == bucket + "/" + userKey + "/" + fileKey;
  }

  // ---- decimal user ids ----

  function Digit(d: nat): char
    requires d < 10
  {
    ('0' as int + d) as char
  }

  function Decimal(n: nat): (s: string)
    ensures s != ""
    ensures forall i :: 0 <= i < |s| ==> '0' <= s[i] <= '9'
  {
    if n < 10 then [Digit(n)] else Decimal(n / 10) + [Digit(n % 10)]
  }

  /** `fmt.Sprintf("%d", n)`. */
  function FormatInt(n: int): string {
    if n < 0 then "-" + Decimal(-n) else Decimal(n)
  }

  function DigitValue(d: char): int {
    d as int - '0' as int
  }

  /** What a string of decimal digits stands for. */
  function ValueOf(s: string): int
    decreases |s|
  {
    if s == "" then 0 else 10 * ValueOf(s[..|s| - 1]) + DigitValue(s[|s| - 1])
  }

  /** Reading a formatted number back gives the number. */
  lemma {:induction false} DecimalReadBack(n: nat)
    ensures ValueOf(Decimal(n)) == n
  {
    if n >= 10 {
      DecimalReadBack(n / 10);
      assert Decimal(n)[..|Decimal(n)| - 1] == Decimal(n / 10);
    } else {
      assert [Digit(n)][..0] == "";
    }
  }

  lemma DecimalInjective(m: nat, n: nat)
    requires Decimal(m) == Decimal(n)
    ensures m == n
  {
    DecimalReadBack(m);
    DecimalReadBack(n);
  }

  lemma FormatIntInjective(m: int, n: int)
    requires FormatInt(m) == FormatInt(n)
    ensures m == n
  {
    assert m < 0 <==> FormatInt(m)[0] == '-';
    assert n < 0 <==> FormatInt(n)[0] == '-';
    if m < 0 {
      assert FormatInt(m)[1..] == Decimal(-m);
      assert FormatInt(n)[1..] == Decimal(-n);
      DecimalInjective(-m, -n);
    } else {
      DecimalInjective(m, n);
    }
  }

  // ---- the key of a generated image ----

  const UUID_LENGTH := 36

  /** The text form of a PostgreSQL uuid. */
  predicate IsUuid(s: string) {
    |s| == UUID_LENGTH && forall i :: 0 <= i < |s| ==> s[i] == '-' || '0' <= s[i] <= '9' || 'a' <= s[i] <= 'f'
  }

  predicate IsExtension(s: string) {
    s == "png" || s == "jpg" || s == "webp"
  }

  /** The file extension of a requested output format. */
  function ExtensionOf(format: string): (extension: string)
    ensures IsExtension(extension)
  {
    if format == "jpeg" then "jpg" else if format == "webp" then "webp" else "png"
  }

  function UserKey(userId: int): string {
    "user-" + FormatInt(userId)
  }

  function FileKey(uuid: string, extension: string): string {
    uuid + "." + extension
  }

  function ImageKey(userId: int, uuid: string, extension: string): string {
    PutKey("images", UserKey(userId), FileKey(uuid, extension))
  }

  lemma KeyPartsAreNames(userId: int, uuid: string, extension: string)
    requires IsUuid(uuid) && IsExtension(extension)
    ensures IsName("images") && IsName(UserKey(userId)) && IsName(FileKey(uuid, extension))
  {
    assert "images"[0] == 'i';
    assert UserKey(userId)[0] == 'u';
    assert NoSlash(FormatInt(userId));
    assert |FileKey(uuid, extension)| > 2;
  }

  /** The key is `images/user-<id>/<uuid>.<ext>`, and splitting recovers its parts. */
  lemma ImageKeyParts(userId: int, uuid: string, extension: string)
    requires IsUuid(uuid) && IsExtension(extension)
    ensures ImageKey(userId, uuid, extension) == "images" + "/" + UserKey(userId) + "/" + FileKey(uuid, extension)
    ensures Split(ImageKey(userId, uuid, extension)) == ["images", UserKey(userId), FileKey(uuid, extension)]
  {
    KeyPartsAreNames(userId, uuid, extension);
    PutKeyPlain("images", UserKey(userId), FileKey(uuid, extension));
  }

  /** The key, written out. */
  lemma ImageKeyText(userId: int, uuid: string, format: string)
    requires IsUuid(uuid)
    ensures ImageKey(userId, uuid, ExtensionOf(format))
            == "images" + "/" + ("user-" + FormatInt(userId)) + "/"
               + (uuid + "." + (if format == "jpeg" then "jpg" else if format == "webp" then "webp" else "png"))
  {
    ImageKeyParts(userId, uuid, ExtensionOf(format));
  }

  /** No two (user, uuid, extension) triples share a key. */
  lemma ImageKeyInjective(u: int, x: string, e: string, u': int, x': string, e': string)
    requires IsUuid(x) && IsUuid(x') && IsExtension(e) && IsExtension(e')
    requires ImageKey(u, x, e) == ImageKey(u', x', e')
    ensures u == u' && x == x' && e == e'
  {
    ImageKeyParts(u, x, e);
    ImageKeyParts(u', x', e');
    var parts, parts' := ["images", UserKey(u), FileKey(x, e)], ["images", UserKey(u'), FileKey(x', e')];
    assert parts[1] == parts'[1] && parts[2] == parts'[2];
    assert UserKey(u)[5..] == FormatInt(u) && UserKey(u')[5..] == FormatInt(u');
    FormatIntInjective(u, u');
    assert x == FileKey(x, e)[..UUID_LENGTH] && x' == FileKey(x', e')[..UUID_LENGTH];
    assert e == FileKey(x, e)[UUID_LENGTH + 1..] && e' == FileKey(x', e')[UUID_LENGTH + 1..];
  }
}
