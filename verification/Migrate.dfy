/** Copying a directory of images into the object store, previewing that, and checking it. */
module Migrate {
  import opened Wrappers
  import opened Paths

  /** What the walk can learn of a file: the size its directory entry reports, and its content.
      Either may fail; for a symbolic link the two need not agree. */
  datatype File = File(size: Option<int>, data: Option<Bytes>)

  datatype Node =
    | FileNode(name: string, file: File)
    | DirNode(name: string, unreadable: bool, children: seq<Node>)

  datatype Mode = DryRun | VerifyOnly | Upload

  /** The mode, and which store operations go through. */
  datatype Env = Env(mode: Mode, putOk: string -> bool, statOk: string -> bool)

  datatype Stats = Stats(scanned: int, uploaded: int, verified: int, skipped: int, failed: int, bytes: int)

  type Objects = map<string, Bytes>

  datatype World = World(stats: Stats, objects: Objects)

  const ZERO := Stats(0, 0, 0, 0, 0, 0)

  predicate IsHidden(name: string) {
    name != "" && name[0] == '.'
  }

  // ---- object keys ----

  /** `splitObjectKey`: bucket, user and file part of a key. */
  function SplitObjectKey(key: string): Option<(string, string, string)> {
    var parts := Split(key);
    if |parts| < 3 || parts[0] != "images" || parts[1] == "" then None
    else
      var fileKey := JoinPath(parts[2..]);
      if fileKey == "." || fileKey == "" then None else Some((parts[0], parts[1], fileKey))
  }

  /** Whatever the key, if it is accepted the upload goes to the cleaned key. */
  lemma UploadKeyIsCleaned(key: string)
    requires SplitObjectKey(key).Some?
    ensures var (bucket, userKey, fileKey) := SplitObjectKey(key).value;
            PutKey(bucket, userKey, fileKey) == Clean(Split(key))
  {
    var parts := Split(key);
    var (bucket, userKey, fileKey) := SplitObjectKey(key).value;
    var present := NonEmpty(parts[2..]);
    NonEmptyNoSlash(parts[2..]);
    SplitJoin(present);
    var kept := PushAll([], present);
    KeptNoSlash([], present);
    SplitJoin(kept);
    PutKeyParts(bucket, userKey, fileKey);
    var front := [bucket, userKey];
    PushAllAppend([], front, kept);
    CleanTailFirst(PushAll([], front), present);
    EmptyPartsDropped(PushAll([], front), parts[2..]);
    PushAllAppend([], front, parts[2..]);
    assert front + parts[2..] == parts;
  }

  lemma {:induction false} JoinOfNames(parts: seq<string>)
    requires |parts| >= 1 && AllNames(parts)
    ensures JoinSlash(parts) != "" && JoinSlash(parts) != "."
  {
    if |parts| > 1 {
      assert |JoinSlash(parts)| >= 2;
    }
  }

  /** The path below the user directory survives the joining of its components. */
  lemma TailRejoined(tail: seq<string>)
    requires |tail| >= 1 && AllNames(tail)
    ensures JoinPath(tail) == JoinSlash(tail)
  {
    NonEmptyKeepsAll(tail);
    SplitJoin(tail);
    NamesAreKept([], tail);
    assert [] + tail == tail;
  }

  /** A file below `images` is accepted exactly when it lies inside a user directory, and then it
      is uploaded under exactly its relative path. */
  lemma UploadKeyIsRelativePath(path: seq<string>)
    requires AllNames(path) && |path| >= 1 && path[0] == "images"
    ensures SplitObjectKey(JoinSlash(path)).Some? <==> |path| >= 3
    ensures |path| >= 3 ==>
              var (bucket, userKey, fileKey) := SplitObjectKey(JoinSlash(path)).value;
              PutKey(bucket, userKey, fileKey) == JoinSlash(path)
  {
    SplitJoin(path);
    if |path| >= 3 {
      TailRejoined(path[2..]);
      JoinOfNames(path[2..]);
      UploadKeyIsCleaned(JoinSlash(path));
      NamesAreKept([], path);
      assert [] + path == path;
    }
  }

  // ---- the walk as a sequence of events ----

  datatype Event =
    | Visit(path: seq<string>, file: File)  // a file, by its path from the data directory
    | HiddenDir                             // skipped with everything below it
    | Unreadable                            // a directory whose listing failed (it may be partial)

  /** What the callback of the directory walk is told about a node at this path, in order. */
  function Events(path: seq<string>, node: Node, root: bool): seq<Event>
    decreases node, 0
  {
    match node
    case FileNode(_, file) => [Visit(path, file)]
    case DirNode(name, unreadable, children) =>
      if IsHidden(name) && !root then [HiddenDir]
      else (if unreadable then [Unreadable] else []) + ChildEvents(path, children)
  }

  function ChildEvents(path: seq<string>, children: seq<Node>): seq<Event>
    decreases children, 1
  {
    if children == [] then []
    else
      var last := children[|children| - 1];
      ChildEvents(path, children[..|children| - 1]) + Events(path + [last.name], last, false)
  }

  function Key(path: seq<string>): string {
    JoinSlash(path)
  }

  /** The file is not hidden and its key is accepted. */
  predicate Accepted(path: seq<string>) {
    path != [] && !IsHidden(path[|path| - 1]) && SplitObjectKey(Key(path)).Some?
  }

  /** What one callback does. */
  function Handle(env: Env, w: World, e: Event): World {
    match e
    case HiddenDir => w.(stats := w.stats.(skipped := w.stats.skipped + 1))
    case Unreadable => w.(stats := w.stats.(failed := w.stats.failed + 1))
    case Visit(path, file) =>
      var s := w.stats.(scanned := w.stats.scanned + 1);
      var bad := w.(stats := s.(failed := s.failed + 1));
      if path == [] || IsHidden(path[|path| - 1]) then w.(stats := s.(skipped := s.skipped + 1))
      else
        match SplitObjectKey(Key(path))
        case None => bad
        case Some((bucket, userKey, fileKey)) =>
          if file.size.None? then bad
          else
            var n := file.size.value;
            var t := s.(bytes := s.bytes + n);
            var bad := w.(stats := t.(failed := t.failed + 1));
            match env.mode
            case DryRun => w.(stats := t.(uploaded := t.uploaded + 1))
            case VerifyOnly =>
              if !env.statOk(Key(path)) || Key(path) !in w.objects || |w.objects[Key(path)]| != n then bad
              else w.(stats := t.(verified := t.verified + 1))
            case Upload =>
              if file.data.None? || !env.putOk(Key(path)) then bad
              else
                World(t.(uploaded := t.uploaded + 1),
                      w.objects[PutKey(bucket, userKey, fileKey) := file.data.value])
  }

  function HandleAll(env: Env, w: World, events: seq<Event>): World
    decreases |events|
  {
    if events == [] then w
    else Handle(env, HandleAll(env, w, events[..|events| - 1]), events[|events| - 1])
  }

  lemma {:induction false} HandleAppend(env: Env, w: World, left: seq<Event>, right: seq<Event>)
    ensures HandleAll(env, w, left + right) == HandleAll(env, HandleAll(env, w, left), right)
    decreases |right|
  {
    if right == [] {
      assert left + right == left;
    } else {
      assert (left + right)[..|left + right| - 1] == left + right[..|right| - 1];
      HandleAppend(env, w, left, right[..|right| - 1]);
    }
  }

  lemma HandleOne(env: Env, w: World, e: Event)
    ensures HandleAll(env, w, [e]) == Handle(env, w, e)
  {
    assert [e][..0] == [];
  }

  // ---- accounting ----

  function CountVisits(events: seq<Event>): nat {
    if events == [] then 0 else (if events[0].Visit? then 1 else 0) + CountVisits(events[1..])
  }

  function CountOthers(events: seq<Event>): nat {
    if events == [] then 0 else (if events[0].Visit? then 0 else 1) + CountOthers(events[1..])
  }

  lemma {:induction false} CountSnoc(events: seq<Event>, e: Event)
    ensures CountVisits(events + [e]) == CountVisits(events) + (if e.Visit? then 1 else 0)
    ensures CountOthers(events + [e]) == CountOthers(events) + (if e.Visit? then 0 else 1)
  {
    if events == [] {
      assert events + [e] == [e];
    } else {
      assert (events + [e])[1..] == events[1..] + [e];
      CountSnoc(events[1..], e);
    }
  }

  predicate IsHiddenEvent(e: Event) {
    e.HiddenDir? || (e.Visit? && (e.path == [] || "." <= e.path[|e.path| - 1]))
  }

  /** Hidden files and hidden directories. */
  function CountHidden(events: seq<Event>): nat {
    if events == [] then 0
    else CountHidden(events[..|events| - 1]) + (if IsHiddenEvent(events[|events| - 1]) then 1 else 0)
  }

  function BytesOf(e: Event): int {
    if e.Visit? && Accepted(e.path) && e.file.size.Some? then e.file.size.value else 0
  }

  /** The reported sizes of the accepted files. */
  function TotalBytes(events: seq<Event>): int {
    if events == [] then 0 else TotalBytes(events[..|events| - 1]) + BytesOf(events[|events| - 1])
  }

  function Settled(s: Stats): int {
    s.uploaded + s.verified + s.skipped + s.failed
  }

  lemma EachIsCountedOnce(env: Env, w: World, e: Event)
    ensures var s := Handle(env, w, e).stats;
            && s.scanned == w.stats.scanned + (if e.Visit? then 1 else 0)
            && Settled(s) == Settled(w.stats) + 1
            && s.skipped == w.stats.skipped + (if IsHiddenEvent(e) then 1 else 0)
            && s.bytes == w.stats.bytes + BytesOf(e)
  {
  }

  /** In every mode and with any faults, each file, each hidden directory and each unreadable
      directory is counted in exactly one of uploaded, verified, skipped and failed. */
  lemma {:induction false} EverythingIsCounted(env: Env, w: World, events: seq<Event>)
    ensures var s := HandleAll(env, w, events).stats;
            && s.scanned == w.stats.scanned + CountVisits(events)
            && Settled(s) == Settled(w.stats) + CountVisits(events) + CountOthers(events)
            && s.skipped == w.stats.skipped + CountHidden(events)
            && s.bytes == w.stats.bytes + TotalBytes(events)
    decreases |events|
  {
    if events != [] {
      var init, e := events[..|events| - 1], events[|events| - 1];
      EverythingIsCounted(env, w, init);
      EachIsCountedOnce(env, HandleAll(env, w, init), e);
      CountSnoc(init, e);
      assert events == init + [e];
    }
  }

  /** A file whose content goes (or, in a dry run, would go) to the store. */
  predicate CountsAsUpload(env: Env, e: Event) {
    && e.Visit? && Accepted(e.path) && e.file.size.Some?
    && (env.mode == DryRun || (env.mode == Upload && e.file.data.Some? && env.putOk(Key(e.path))))
  }

  /** A file whose object is there and as large as the directory entry says. */
  predicate CountsAsVerified(env: Env, objects: Objects, e: Event) {
    && env.mode == VerifyOnly && e.Visit? && Accepted(e.path) && e.file.size.Some?
    && env.statOk(Key(e.path)) && Key(e.path) in objects && |objects[Key(e.path)]| == e.file.size.value
  }

  predicate CountsAsFailed(env: Env, objects: Objects, e: Event) {
    !IsHiddenEvent(e) && !CountsAsUpload(env, e) && !CountsAsVerified(env, objects, e)
  }

  function CountOf(events: seq<Event>, p: Event -> bool): nat {
    if events == [] then 0
    else CountOf(events[..|events| - 1], p) + (if p(events[|events| - 1]) then 1 else 0)
  }

  lemma EachHasItsOutcome(env: Env, w: World, e: Event)
    ensures var t := Handle(env, w, e);
            && t.stats.uploaded == w.stats.uploaded + (if CountsAsUpload(env, e) then 1 else 0)
            && t.stats.verified == w.stats.verified + (if CountsAsVerified(env, w.objects, e) then 1 else 0)
            && t.stats.failed == w.stats.failed + (if CountsAsFailed(env, w.objects, e) then 1 else 0)
            && (env.mode != Upload ==> t.objects == w.objects)
  {
  }

  /** In every mode and under any faults, uploaded, verified and failed count exactly the events with
      that outcome; and only an upload changes the store. */
  lemma {:induction false} OutcomesAreCounted(env: Env, w: World, events: seq<Event>)
    ensures var t := HandleAll(env, w, events);
            && t.stats.uploaded == w.stats.uploaded + CountOf(events, e => CountsAsUpload(env, e))
            && t.stats.verified == w.stats.verified + CountOf(events, e => CountsAsVerified(env, w.objects, e))
            && t.stats.failed == w.stats.failed + CountOf(events, e => CountsAsFailed(env, w.objects, e))
            && (env.mode != Upload ==> t.objects == w.objects)
    decreases |events|
  {
    if events != [] {
      var init, e := events[..|events| - 1], events[|events| - 1];
      OutcomesAreCounted(env, w, init);
      EachHasItsOutcome(env, HandleAll(env, w, init), e);
      assert env.mode == Upload ==> forall objects :: !CountsAsVerified(env, objects, e);
    }
  }

  // ---- distinct paths ----

  /** File names as a directory has them: plain, and no two alike. */
  predicate ValidTree(node: Node)
    decreases node, 0
  {
    IsName(node.name) && (node.DirNode? ==> ValidChildren(node.children))
  }

  predicate ValidChildren(children: seq<Node>)
    decreases children, 1
  {
    && (forall i :: 0 <= i < |children| ==> ValidTree(children[i]))
    && (forall i, j :: 0 <= i < j < |children| ==> children[i].name != children[j].name)
  }

  predicate VisitsUnder(events: seq<Event>, path: seq<string>) {
    forall i :: 0 <= i < |events| && events[i].Visit? ==> path <= events[i].path && AllNames(events[i].path)
  }

  /** No two files of the walk have the same path. */
  predicate PathsDistinct(events: seq<Event>) {
    forall i, j :: 0 <= i < j < |events| && events[i].Visit? && events[j].Visit? ==> events[i].path != events[j].path
  }

  lemma {:induction false} TreePaths(path: seq<string>, node: Node, root: bool)
    requires ValidTree(node) && AllNames(path)
    ensures VisitsUnder(Events(path, node, root), path) && PathsDistinct(Events(path, node, root))
    decreases node, 0
  {
    match node
    case FileNode(_, _) =>
    case DirNode(name, unreadable, children) =>
      ChildPaths(path, children);
  }

  lemma {:induction false} ChildPaths(path: seq<string>, children: seq<Node>)
    requires ValidChildren(children) && AllNames(path)
    ensures VisitsUnder(ChildEvents(path, children), path) && PathsDistinct(ChildEvents(path, children))
    ensures forall i :: 0 <= i < |ChildEvents(path, children)| && ChildEvents(path, children)[i].Visit? ==>
              |path| < |ChildEvents(path, children)[i].path|
              && exists k :: 0 <= k < |children| && children[k].name == ChildEvents(path, children)[i].path[|path|]
    decreases children, 1
  {
    if children != [] {
      var n := |children| - 1;
      var last := children[n];
      var below := path + [last.name];
      assert ValidTree(last);
      ChildPaths(path, children[..n]);
      TreePaths(below, last, false);
      var before, here := ChildEvents(path, children[..n]), Events(below, last, false);
      forall j | 0 <= j < |here| && here[j].Visit?
        ensures path <= here[j].path && |path| < |here[j].path| && here[j].path[|path|] == last.name
      {
        assert below <= here[j].path;
        assert here[j].path[|path|] == below[|path|];
      }
      forall i, j | 0 <= i < |before| && 0 <= j < |here| && before[i].Visit? && here[j].Visit?
        ensures before[i].path != here[j].path
      {
        var k :| 0 <= k < |children[..n]| && children[..n][k].name == before[i].path[|path|];
        assert children[k].name != last.name;
      }
      assert ChildEvents(path, children) == before + here;
    }
  }

  // ---- which files are visited ----

  /** The directory is one the walk does not enter. */
  predicate Shut(node: Node) {
    node.DirNode? && "." <= node.name
  }

  /** Below this node, these names lead to this file, through directories the walk enters. */
  ghost predicate LeadsTo(node: Node, names: seq<string>, file: File)
    decreases node, 0
  {
    match node
    case FileNode(_, f) => names == [] && f == file
    case DirNode(_, _, children) => SomeLeadsTo(children, names, file)
  }

  ghost predicate SomeLeadsTo(children: seq<Node>, names: seq<string>, file: File)
    decreases children, 1
  {
    names != [] &&
    exists i :: 0 <= i < |children| && children[i].name == names[0] && !Shut(children[i])
                && LeadsTo(children[i], names[1..], file)
  }

  /** The walk visits exactly the files that the tree's names lead to, with their paths. */
  lemma {:induction false} VisitsWhatIsThere(path: seq<string>, node: Node, root: bool, at: seq<string>, file: File)
    requires root || !Shut(node)
    ensures Visit(at, file) in Events(path, node, root) <==> path <= at && LeadsTo(node, at[|path|..], file)
    decreases node, 0
  {
    match node
    case FileNode(_, f) =>
      assert Events(path, node, root) == [Visit(path, f)];
      if Visit(at, file) in Events(path, node, root) {
        assert Visit(at, file) == Visit(path, f);
        assert at == path && file == f && at[|path|..] == [];
      }
      if path <= at && LeadsTo(node, at[|path|..], file) {
        assert at[|path|..] == [] && f == file;
        assert at == path + at[|path|..] == path;
        assert Events(path, node, root)[0] == Visit(at, file);
      }
    case DirNode(_, _, children) =>
      VisitsWhatIsBelow(path, children, at, file);
  }

  /** Going down into a child is following its name. */
  lemma StepsInto(path: seq<string>, child: Node, at: seq<string>, file: File)
    ensures path + [child.name] <= at && LeadsTo(child, at[|path| + 1..], file) <==>
              path <= at && at[|path|..] != [] && at[|path|..][0] == child.name
              && LeadsTo(child, at[|path|..][1..], file)
  {
    if path <= at && |at| > |path| {
      assert at[|path|..][1..] == at[|path| + 1..];
      assert at[|path|..][0] == at[|path|];
      if at[|path|] == child.name {
        assert path + [child.name] == at[..|path| + 1];
      }
    }
  }

  lemma OneMoreChild(children: seq<Node>, names: seq<string>, file: File)
    requires children != []
    ensures var n := |children| - 1;
            SomeLeadsTo(children, names, file) <==>
              || SomeLeadsTo(children[..n], names, file)
              || (names != [] && children[n].name == names[0] && !Shut(children[n])
                  && LeadsTo(children[n], names[1..], file))
  {
    var n := |children| - 1;
    assert forall i :: 0 <= i < n ==> children[..n][i] == children[i];
  }

  lemma {:induction false} VisitsWhatIsBelow(path: seq<string>, children: seq<Node>, at: seq<string>, file: File)
    ensures Visit(at, file) in ChildEvents(path, children) <==>
              path <= at && SomeLeadsTo(children, at[|path|..], file)
    decreases children, 1
  {
    if children != [] {
      var n := |children| - 1;
      var init, last := children[..n], children[n];
      VisitsWhatIsBelow(path, init, at, file);
      var below := path + [last.name];
      if Shut(last) {
        assert Events(below, last, false) == [HiddenDir];
      } else {
        VisitsWhatIsThere(below, last, false, at, file);
      }
      StepsInto(path, last, at, file);
      OneMoreChild(children, if path <= at then at[|path|..] else [], file);
    }
  }

  // ---- what an upload leaves ----

  /** An event that stores something when uploading. */
  predicate Stores(env: Env, e: Event) {
    e.Visit? && Accepted(e.path) && e.file.size.Some? && e.file.data.Some? && env.putOk(Key(e.path))
  }

  /** Paths the walk produces below `images`. */
  predicate WalkEvents(events: seq<Event>) {
    PathsDistinct(events)
    && forall i :: 0 <= i < |events| && events[i].Visit? ==>
         AllNames(events[i].path) && |events[i].path| >= 1 && events[i].path[0] == "images"
  }

  lemma UploadStep(env: Env, w: World, e: Event)
    requires env.mode == Upload
    requires e.Visit? ==> AllNames(e.path) && |e.path| >= 1 && e.path[0] == "images"
    ensures Handle(env, w, e).objects
            == if Stores(env, e) then w.objects[Key(e.path) := e.file.data.value] else w.objects
  {
    if e.Visit? {
      UploadKeyIsRelativePath(e.path);
    }
  }

  lemma KeysDiffer(a: seq<string>, b: seq<string>)
    requires AllNames(a) && AllNames(b) && |a| >= 1 && |b| >= 1 && a != b
    ensures Key(a) != Key(b)
  {
    SplitJoin(a);
    SplitJoin(b);
  }

  lemma {:induction false} UploadStores(env: Env, w: World, events: seq<Event>)
    requires env.mode == Upload && WalkEvents(events)
    ensures var after := HandleAll(env, w, events).objects;
            && (forall i :: 0 <= i < |events| && Stores(env, events[i]) ==>
                  Key(events[i].path) in after && after[Key(events[i].path)] == events[i].file.data.value)
            && (forall key ::
                  (forall i :: 0 <= i < |events| && Stores(env, events[i]) ==> Key(events[i].path) != key) ==>
                  (key in after <==> key in w.objects) && (key in after ==> after[key] == w.objects[key]))
    decreases |events|
  {
    if events != [] {
      var n := |events| - 1;
      var init, e := events[..n], events[n];
      assert forall i :: 0 <= i < n ==> init[i] == events[i];
      UploadStores(env, w, init);
      UploadStep(env, HandleAll(env, w, init), e);
      if Stores(env, e) {
        forall i | 0 <= i < n && Stores(env, events[i])
          ensures Key(events[i].path) != Key(e.path)
        {
          KeysDiffer(events[i].path, e.path);
        }
      }
    }
  }

  /** What the walk of this tree reports, when the tree is the images directory. */
  function WalkOf(tree: Node): seq<Event> {
    Events([tree.name], tree, true)
  }

  predicate ImagesTree(tree: Node) {
    ValidTree(tree) && tree.name == "images"
  }

  lemma WalkOfImages(tree: Node)
    requires ImagesTree(tree)
    ensures WalkEvents(WalkOf(tree))
  {
    TreePaths([tree.name], tree, true);
  }

  /** The file at this path of the tree, the path beginning with the tree's own name. */
  ghost predicate FileIn(tree: Node, path: seq<string>, file: File) {
    [tree.name] <= path && LeadsTo(tree, path[1..], file)
  }

  /** The walk of the images directory visits each of its files that no hidden directory contains,
      and nothing else. */
  lemma WalkVisitsFiles(tree: Node, path: seq<string>, file: File)
    ensures Visit(path, file) in WalkOf(tree) <==> FileIn(tree, path, file)
  {
    VisitsWhatIsThere([tree.name], tree, true, path, file);
  }

  /** After the upload of any directory tree the store holds every file that could be read and
      sent, under exactly its relative path and with exactly its content, and nothing else has
      changed. */
  lemma UploadStoresExactly(env: Env, w: World, tree: Node)
    requires env.mode == Upload && ImagesTree(tree)
    ensures var after := HandleAll(env, w, WalkOf(tree)).objects;
            && (forall path, file :: FileIn(tree, path, file) && Stores(env, Visit(path, file)) ==>
                  Key(path) in after && after[Key(path)] == file.data.value)
            && (forall key ::
                  (forall path, file :: FileIn(tree, path, file) && Stores(env, Visit(path, file)) ==>
                     Key(path) != key) ==>
                  (key in after <==> key in w.objects) && (key in after ==> after[key] == w.objects[key]))
  {
    var events := WalkOf(tree);
    var after := HandleAll(env, w, events).objects;
    WalkOfImages(tree);
    UploadStores(env, w, events);
    forall path, file | FileIn(tree, path, file) && Stores(env, Visit(path, file))
      ensures Key(path) in after && after[Key(path)] == file.data.value
    {
      WalkVisitsFiles(tree, path, file);
      var i :| 0 <= i < |events| && events[i] == Visit(path, file);
    }
    forall key |
      forall path, file :: FileIn(tree, path, file) && Stores(env, Visit(path, file)) ==> Key(path) != key
      ensures (key in after <==> key in w.objects) && (key in after ==> after[key] == w.objects[key])
    {
      forall i | 0 <= i < |events| && Stores(env, events[i])
        ensures Key(events[i].path) != key
      {
        WalkVisitsFiles(tree, events[i].path, events[i].file);
        assert events[i] == Visit(events[i].path, events[i].file);
      }
    }
  }

  // ---- checking what an upload left ----

  function Mismatch(e: Event): nat {
    if e.Visit? && Accepted(e.path) && e.file.size.Some? && e.file.data.Some?
       && e.file.size.value != |e.file.data.value| then 1 else 0
  }

  /** Files whose reported size is not the size of their content. */
  function Mismatches(events: seq<Event>): nat {
    if events == [] then 0
    else Mismatches(events[..|events| - 1]) + Mismatch(events[|events| - 1])
  }

  /** Every accepted file can be read and sent, and its object can be looked up. */
  predicate NoFaults(put: Env, check: Env, events: seq<Event>) {
    forall i :: 0 <= i < |events| && events[i].Visit? && Accepted(events[i].path) && events[i].file.size.Some? ==>
      events[i].file.data.Some? && put.putOk(Key(events[i].path)) && check.statOk(Key(events[i].path))
  }

  /** The upload's and the check's counters so far, with m mismatches among the events. */
  predicate CountersAgree(w: Stats, up: Stats, ver: Stats, m: int) {
    && ver.scanned == up.scanned && ver.skipped == up.skipped && ver.bytes == up.bytes
    && ver.uploaded == w.uploaded && up.verified == w.verified
    && (ver.verified - w.verified) + m == up.uploaded - w.uploaded
    && ver.failed == up.failed + m
  }

  lemma VerifyStep(put: Env, check: Env, w: Stats, up: World, ver: World, e: Event, m: int)
    requires put.mode == Upload && check.mode == VerifyOnly && CountersAgree(w, up.stats, ver.stats, m)
    requires e.Visit? && Accepted(e.path) && e.file.size.Some? ==> Stores(put, e) && check.statOk(Key(e.path))
    requires Stores(put, e) ==> Key(e.path) in ver.objects && ver.objects[Key(e.path)] == e.file.data.value
    ensures CountersAgree(w, Handle(put, up, e).stats, Handle(check, ver, e).stats, m + Mismatch(e))
    ensures Handle(check, ver, e).objects == ver.objects
  {
  }

  lemma {:induction false} VerifyCounts(put: Env, check: Env, w: World, v: World, events: seq<Event>)
    requires put.mode == Upload && check.mode == VerifyOnly && NoFaults(put, check, events) && v.stats == w.stats
    requires forall i :: 0 <= i < |events| && Stores(put, events[i]) ==>
               Key(events[i].path) in v.objects && v.objects[Key(events[i].path)] == events[i].file.data.value
    ensures CountersAgree(w.stats, HandleAll(put, w, events).stats, HandleAll(check, v, events).stats,
                          Mismatches(events))
    ensures HandleAll(check, v, events).objects == v.objects
    decreases |events|
  {
    if events != [] {
      var n := |events| - 1;
      var init, e := events[..n], events[n];
      assert forall i :: 0 <= i < n ==> init[i] == events[i];
      VerifyCounts(put, check, w, v, init);
      VerifyStep(put, check, w.stats, HandleAll(put, w, init), HandleAll(check, v, init), e, Mismatches(init));
    }
  }

  /** For any directory tree, a verify-only run after an upload without I/O errors agrees with it on what was scanned,
      skipped and measured, and confirms every uploaded file whose reported size is the size of
      its content; the others it reports as failed. */
  lemma VerifyAfterUpload(put: Env, check: Env, objects: Objects, tree: Node)
    requires put.mode == Upload && check.mode == VerifyOnly && ImagesTree(tree) && NoFaults(put, check, WalkOf(tree))
    ensures var events := WalkOf(tree);
            var up := HandleAll(put, World(ZERO, objects), events);
            var ver := HandleAll(check, World(ZERO, up.objects), events);
            && ver.stats.verified + Mismatches(events) == up.stats.uploaded
            && ver.stats.failed == up.stats.failed + Mismatches(events)
            && ver.stats.scanned == up.stats.scanned && ver.stats.skipped == up.stats.skipped
            && ver.stats.bytes == up.stats.bytes && ver.stats.uploaded == 0 && ver.objects == up.objects
  {
    var events := WalkOf(tree);
    WalkOfImages(tree);
    var up := HandleAll(put, World(ZERO, objects), events);
    UploadStores(put, World(ZERO, objects), events);
    VerifyCounts(put, check, World(ZERO, objects), World(ZERO, up.objects), events);
  }

  /** A dry run touches nothing and announces exactly the counters of an upload without I/O errors. */
  lemma {:induction false} DryRunPredicts(dry: Env, put: Env, w: World, events: seq<Event>)
    requires dry.mode == DryRun && put.mode == Upload && NoFaults(put, put.(statOk := _ => true), events)
    ensures HandleAll(dry, w, events) == World(HandleAll(put, w, events).stats, w.objects)
    decreases |events|
  {
    if events != [] {
      var n := |events| - 1;
      var init, e := events[..n], events[n];
      assert forall i :: 0 <= i < n ==> init[i] == events[i];
      DryRunPredicts(dry, put, w, init);
      assert e.Visit? && Accepted(e.path) && e.file.size.Some? ==> e.file.data.Some? && put.putOk(Key(e.path));
    }
  }

  // ---- the migration object ----

  class Migration {
    const env: Env
    var scanned: int
    var uploaded: int
    var verified: int
    var skipped: int
    var failed: int
    var bytes: int
    var objects: Objects

    ghost function Whole(): World
      reads this
    {
      World(Stats(scanned, uploaded, verified, skipped, failed, bytes), objects)
    }

    constructor (env: Env, objects: Objects)
      ensures this.env == env && Whole() == World(ZERO, objects)
    {
      this.env, this.objects := env, objects;
      scanned, uploaded, verified, skipped, failed, bytes := 0, 0, 0, 0, 0, 0;
    }

    /** Walks a node and what is below it. */
    method Walk(path: seq<string>, node: Node, root: bool)
      modifies this
      ensures Whole() == HandleAll(env, old(Whole()), Events(path, node, root))
      decreases node, 0
    {
      ghost var before := Whole();
      match node {
        case FileNode(_, file) =>
          VisitFile(path, file);
          HandleOne(env, before, Visit(path, file));
        case DirNode(name, unreadable, children) =>
          if IsHidden(name) && !root {
            skipped := skipped + 1;
            HandleOne(env, before, HiddenDir);
            return;
          }
          if unreadable {
            failed := failed + 1;
            HandleOne(env, before, Unreadable);
            HandleAppend(env, before, [Unreadable], ChildEvents(path, children));
          }
          WalkChildren(path, children);
          assert [] + ChildEvents(path, children) == ChildEvents(path, children);
      }
    }

    method WalkChildren(path: seq<string>, children: seq<Node>)
      modifies this
      ensures Whole() == HandleAll(env, old(Whole()), ChildEvents(path, children))
      decreases children, 1
    {
      ghost var before := Whole();
      for i := 0 to |children|
        invariant Whole() == HandleAll(env, before, ChildEvents(path, children[..i]))
      {
        Walk(path + [children[i].name], children[i], false);
        var upTo := children[..i + 1];
        assert upTo[..i] == children[..i] && upTo[i] == children[i];
        HandleAppend(env, before, ChildEvents(path, children[..i]),
                     Events(path + [children[i].name], children[i], false));
      }
      assert children[..|children|] == children;
    }

    method VisitFile(path: seq<string>, file: File)
      modifies this
      ensures Whole() == Handle(env, old(Whole()), Visit(path, file))
    {
      scanned := scanned + 1;
      if path == [] || IsHidden(path[|path| - 1]) {
        skipped := skipped + 1;
        return;
      }
      var key := JoinSlash(path);
      var split := SplitObjectKey(key);
      if split.None? || file.size.None? {
        failed := failed + 1;
        return;
      }
      bytes := bytes + file.size.value;
      if env.mode == DryRun {
        uploaded := uploaded + 1;
        return;
      }
      if env.mode == VerifyOnly {
        if !env.statOk(key) || key !in objects {
          failed := failed + 1;
          return;
        }
        if |objects[key]| != file.size.value {
          failed := failed + 1;
          return;
        }
        verified := verified + 1;
        return;
      }
      if file.data.None? || !env.putOk(key) {
        failed := failed + 1;
        return;
      }
      var (bucket, userKey, fileKey) := split.value;
      objects := objects[PutKey(bucket, userKey, fileKey) := file.data.value];
      uploaded := uploaded + 1;
    }
  }
}
