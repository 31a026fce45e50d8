/** The upstream configuration: one database row and its in-memory copy. */
module ConfigStore {
  import opened Wrappers
  import opened Text
  import WorkerPool

  const DEFAULT_TITLE := "shadraw"
  const DEFAULT_CONCURRENCY := 4
  const MIN_CONCURRENCY := 1
  const MAX_CONCURRENCY := 16

  /** The single row of `upstream_configs`. No cipher means a NULL column. */
  datatype Row = Row(
    baseUrl: string,
    cipher: Option<string>,
    models: seq<string>,
    concurrency: int,
    title: string,
    updatedBy: Option<int>)

  const SEED := Row("", None, [], DEFAULT_CONCURRENCY, DEFAULT_TITLE, None)
  const BLANK := Row("", None, [], 0, "", None)

  /** The authenticated cipher: sealing takes a nonce and may fail; opening may fail. */
  datatype Cipher = Cipher(seal: (string, string) -> Option<string>, open: string -> Option<string>)

  /** Opening undoes sealing, and a sealed key is never the empty string. */
  ghost predicate Lawful(c: Cipher) {
    forall plain, nonce :: c.seal(plain, nonce).Some? ==>
      c.seal(plain, nonce).value != "" && c.open(c.seal(plain, nonce).value) == Some(plain)
  }

  /** The row (absent before the first load), the copy, and the worker pool's wanted size. */
  datatype State = State(row: Option<Row>, cached: Row, apiKey: string, loaded: bool, desired: int)

  const INITIAL := State(None, BLANK, "", false, 0)

  datatype Call =
    | Load(dbOk: bool)
    | UpdateUpstream(
        baseUrl: string, apiKey: Option<string>, models: seq<string>, actor: int, nonce: string, dbOk: bool)
    | UpdateWorkerConcurrency(n: int, actor: int, dbOk: bool)
    | UpdateSiteConfig(title: string, actor: int, dbOk: bool)

  function SiteTitleOrDefault(title: string): string {
    var t := TrimSpace(title);
    if t == "" then DEFAULT_TITLE else t
  }

  function ClampConcurrency(n: int): (m: int)
    ensures MIN_CONCURRENCY <= m <= MAX_CONCURRENCY
    ensures MIN_CONCURRENCY <= n <= MAX_CONCURRENCY ==> m == n
  {
    if n < MIN_CONCURRENCY then MIN_CONCURRENCY else if n > MAX_CONCURRENCY then MAX_CONCURRENCY else n
  }

  /** The key a row stands for: none without a cipher, otherwise what the cipher opens to. */
  function KeyOf(c: Cipher, row: Row): Option<string> {
    if row.cipher.None? || row.cipher.value == "" then Some("") else c.open(row.cipher.value)
  }

  /** The key and cipher an update leaves: absent means unchanged, empty means cleared. */
  function Rekeyed(c: Cipher, s: State, apiKey: Option<string>, nonce: string): Option<(Option<string>, string)> {
    match apiKey
    case None => Some((s.cached.cipher, s.apiKey))
    case Some(key) =>
      if key == "" then Some((None, ""))
      else match c.seal(key, nonce)
           case Some(blob) => Some((Some(blob), key))
           case None => None
  }

  /** UPDATE ... WHERE id = 1: nothing happens to a row that is not there. */
  function Written(row: Option<Row>, f: Row -> Row): Option<Row> {
    if row.Some? then Some(f(row.value)) else None
  }

  function Perform(c: Cipher, s: State, call: Call): (State, bool) {
    match call
    case Load(dbOk) =>
      if !dbOk then (s, false)
      else
        var row := if s.row.Some? then s.row.value else SEED;
        var t := s.(row := Some(row));
        var copy := if TrimSpace(row.title) == "" then row.(title := DEFAULT_TITLE) else row;
        (match KeyOf(c, row)
         case None => (t, false)
         case Some(key) => (t.(cached := copy, apiKey := key, loaded := true), true))
    case UpdateUpstream(baseUrl, apiKey, models, actor, nonce, dbOk) =>
      (match Rekeyed(c, s, apiKey, nonce)
       case None => (s, false)
       case Some((cipher, key)) =>
         var f := (r: Row) => r.(baseUrl := baseUrl, models := models, cipher := cipher, updatedBy := Some(actor));
         if !dbOk then (s, false)
         else (s.(row := Written(s.row, f), cached := f(s.cached), apiKey := key), true))
    case UpdateWorkerConcurrency(n, actor, dbOk) =>
      var m := ClampConcurrency(n);
      if !dbOk then (s, false)
      else
        (s.(row := Written(s.row, (r: Row) => r.(concurrency := m, updatedBy := Some(actor))),
            cached := s.cached.(concurrency := m), desired := m), true)
    case UpdateSiteConfig(title, actor, dbOk) =>
      var t := SiteTitleOrDefault(title);
      if !dbOk then (s, false)
      else
        (s.(row := Written(s.row, (r: Row) => r.(title := t, updatedBy := Some(actor))),
            cached := s.cached.(title := t, updatedBy := Some(actor))), true)
  }

  /** The process boots: load, then start the pool at the stored size. */
  function Boot(c: Cipher, s: State): (State, bool) {
    var (t, ok) := Perform(c, s, Load(true));
    if ok then (t.(desired := t.cached.concurrency), true) else (t, false)
  }

  function After(c: Cipher, s: State, calls: seq<Call>): State
    decreases |calls|
  {
    if calls == [] then s else After(c, Perform(c, s, calls[0]).0, calls[1..])
  }

  // ---- the copy agrees with the row ----

  /** Everything but who wrote last. */
  predicate SameSettings(a: Row, b: Row) {
    a.baseUrl == b.baseUrl && a.models == b.models && a.cipher == b.cipher && a.concurrency == b.concurrency
    && SiteTitleOrDefault(a.title) == SiteTitleOrDefault(b.title)
  }

  ghost predicate Coherent(c: Cipher, s: State) {
    && s.row.Some?
    && SameSettings(s.cached, s.row.value)
    && KeyOf(c, s.row.value) == Some(s.apiKey)
    && s.desired == s.row.value.concurrency
    && MIN_CONCURRENCY <= s.row.value.concurrency <= MAX_CONCURRENCY
  }

  /** A row the table's CHECK constraints admit. */
  predicate Storable(row: Row) {
    MIN_CONCURRENCY <= row.concurrency <= MAX_CONCURRENCY
  }

  lemma TrimOfDefault()
    ensures SiteTitleOrDefault(DEFAULT_TITLE) == DEFAULT_TITLE && SiteTitleOrDefault("") == DEFAULT_TITLE
  {
    assert TrimLeft(DEFAULT_TITLE) == DEFAULT_TITLE;
    assert TrimRight(DEFAULT_TITLE) == DEFAULT_TITLE;
  }

  lemma BootCoherent(c: Cipher, s: State)
    requires s.row.Some? ==> Storable(s.row.value)
    ensures Boot(c, s).1 ==> Coherent(c, Boot(c, s).0)
    ensures Boot(c, s).1 <==> (s.row.Some? ==> KeyOf(c, s.row.value).Some?)
  {
    TrimOfDefault();
  }

  lemma CallKeepsCoherent(c: Cipher, s: State, call: Call)
    requires Lawful(c) && Coherent(c, s)
    ensures Coherent(c, Perform(c, s, call).0)
    ensures !Perform(c, s, call).1 ==> Perform(c, s, call).0 == s
  {
    TrimOfDefault();
  }

  /** After any sequence of loads and updates, whichever of them fail, the copy has the row's
      settings, the key in memory is what the stored cipher opens to, and the pool wants the
      stored number of workers. */
  lemma {:induction false} AlwaysCoherent(c: Cipher, s: State, calls: seq<Call>)
    requires Lawful(c) && Coherent(c, s)
    ensures Coherent(c, After(c, s, calls))
    decreases |calls|
  {
    if calls != [] {
      CallKeepsCoherent(c, s, calls[0]);
      AlwaysCoherent(c, Perform(c, s, calls[0]).0, calls[1..]);
    }
  }

  // ---- what readers see ----

  datatype View = View(baseUrl: string, apiKey: string, models: seq<string>, concurrency: int, title: string)

  /** What `View`, `Snapshot`, `AppConfig`, `SiteConfig` and `WorkerConcurrency` are made of. */
  function Visible(s: State): View {
    View(s.cached.baseUrl, s.apiKey, s.cached.models, s.cached.concurrency, SiteTitleOrDefault(s.cached.title))
  }

  /** A fresh load changes nothing a reader can see. */
  lemma ReloadInvisible(c: Cipher, s: State, dbOk: bool)
    requires Coherent(c, s)
    ensures Visible(Perform(c, s, Load(dbOk)).0) == Visible(s)
    ensures Perform(c, s, Load(dbOk)).0.row == s.row
  {
    TrimOfDefault();
  }

  /** A restart whose database answers succeeds, and changes nothing a reader can see. */
  lemma RestartInvisible(c: Cipher, s: State)
    requires Coherent(c, s)
    ensures var (t, ok) := Boot(c, INITIAL.(row := s.row));
            ok && Visible(t) == Visible(s) && t.row == s.row && t.desired == s.desired
  {
    TrimOfDefault();
  }

  /** A key that was set is read back, from memory and again after a restart. */
  lemma KeyReadBack(c: Cipher, s: State, key: string, baseUrl: string, models: seq<string>, actor: int, nonce: string)
    requires Lawful(c) && Coherent(c, s)
    requires Perform(c, s, UpdateUpstream(baseUrl, Some(key), models, actor, nonce, true)).1
    ensures var t := Perform(c, s, UpdateUpstream(baseUrl, Some(key), models, actor, nonce, true)).0;
            && Visible(t) == Visible(s).(baseUrl := baseUrl, apiKey := key, models := models)
            && Boot(c, INITIAL.(row := t.row)).1
            && Visible(Boot(c, INITIAL.(row := t.row)).0) == Visible(t)
  {
    var call := UpdateUpstream(baseUrl, Some(key), models, actor, nonce, true);
    CallKeepsCoherent(c, s, call);
    RestartInvisible(c, Perform(c, s, call).0);
  }

  lemma {:induction false} TrimmedStaysTrimmed(s: string)
    ensures TrimSpace(TrimSpace(s)) == TrimSpace(s)
  {
    var t := TrimSpace(s);
    if t != "" {
      assert TrimLeft(t) == t && TrimRight(t) == t;
    }
  }

  /** An update without a key keeps key and cipher, in the row, in the copy and in memory, and changes
      just the base URL and the models; an update with an empty key clears both. */
  lemma AbsentKeyKept(
    c: Cipher, s: State, apiKey: Option<string>, baseUrl: string, models: seq<string>, actor: int, nonce: string)
    requires Coherent(c, s) && (apiKey == None || apiKey == Some(""))
    ensures var (t, ok) := Perform(c, s, UpdateUpstream(baseUrl, apiKey, models, actor, nonce, true));
            && ok && t.row.Some?
            && t.row.value.cipher == (if apiKey == None then s.row.value.cipher else None)
            && t.cached.cipher == t.row.value.cipher
            && t.apiKey == (if apiKey == None then s.apiKey else "")
            && Visible(t) == Visible(s).(baseUrl := baseUrl, models := models, apiKey := t.apiKey)
            && t.row.value.concurrency == s.row.value.concurrency && t.row.value.title == s.row.value.title
            && t.row.value.baseUrl == baseUrl && t.row.value.models == models && t.row.value.updatedBy == Some(actor)
  {
  }

  /** An update fails exactly if the database does or the key cannot be sealed. */
  lemma UpdateSucceedsIff(c: Cipher, s: State, call: Call)
    requires !call.Load?
    ensures Perform(c, s, call).1 <==>
              && call.dbOk
              && (call.UpdateUpstream? && call.apiKey.Some? && call.apiKey.value != "" ==>
                    c.seal(call.apiKey.value, call.nonce).Some?)
  {
  }

  /** The first boot on an empty table shows the defaults and starts four workers. */
  lemma FirstBoot(c: Cipher)
    ensures var (t, ok) := Boot(c, INITIAL);
            ok && Visible(t) == View("", "", [], 4, "shadraw") && t.desired == 4
  {
    TrimOfDefault();
  }

  /** A title or a worker count that was set is read back, in its normal form; nothing else changes. */
  lemma SettingReadBack(c: Cipher, s: State, call: Call)
    requires Coherent(c, s) && Perform(c, s, call).1
    ensures var t := Perform(c, s, call).0;
            call.UpdateSiteConfig? ==>
              Visible(t) == Visible(s).(title :=
                if TrimSpace(call.title) == "" then "shadraw" else TrimSpace(call.title))
    ensures var t := Perform(c, s, call).0;
            call.UpdateWorkerConcurrency? ==>
              && Visible(t) == Visible(s).(concurrency := t.desired)
              && t.desired == (if call.n < 1 then 1 else if call.n > 16 then 16 else call.n)
  {
    TrimOfDefault();
    if call.UpdateSiteConfig? {
      TrimmedStaysTrimmed(call.title);
    }
  }

  /** The size the store hands to the resizer is one the pool takes over unchanged. */
  lemma PoolTakesStoredSize(c: Cipher, s: State, pool: WorkerPool.Pool)
    requires Coherent(c, s)
    ensures WorkerPool.Resized(pool, s.row.value.concurrency).desired == s.desired == s.cached.concurrency
  {
  }

  // ---- who wrote last ----

  /** The copy names the last writer after every successful call, with one exception: a change of
      concurrency does not refresh it, so there it is right only if the same user wrote before. */
  lemma LastWriterCached(c: Cipher, s: State, call: Call)
    requires s.row.Some? && s.cached.updatedBy == s.row.value.updatedBy && Perform(c, s, call).1
    ensures var t := Perform(c, s, call).0;
            t.row.Some? &&
            (t.cached.updatedBy == t.row.value.updatedBy
             <==> !(call.UpdateWorkerConcurrency? && s.cached.updatedBy != Some(call.actor)))
  {
  }

  // ---- the store object ----

  class Store {
    const cipher: Cipher
    var row: Option<Row>   // the database
    var cached: Row
    var apiKey: string
    var loaded: bool
    var desired: int       // what the resizer was last told

    ghost function Whole(): State
      reads this
    {
      State(row, cached, apiKey, loaded, desired)
    }

    constructor (cipher: Cipher, row: Option<Row>)
      ensures this.cipher == cipher && Whole() == INITIAL.(row := row)
    {
      this.cipher, this.row := cipher, row;
      cached, apiKey, loaded, desired := BLANK, "", false, 0;
    }

    method Load(dbOk: bool) returns (ok: bool)
      modifies this
      ensures (Whole(), ok) == Perform(cipher, old(Whole()), Call.Load(dbOk))
    {
      if !dbOk {
        return false;
      }
      if row.None? {
        row := Some(SEED);
      }
      var copy := row.value;
      if TrimSpace(copy.title) == "" {
        copy := copy.(title := DEFAULT_TITLE);
      }
      var key := "";
      if copy.cipher.Some? && copy.cipher.value != "" {
        var plain := cipher.open(copy.cipher.value);
        if plain.None? {
          return false;
        }
        key := plain.value;
      }
      cached, apiKey, loaded := copy, key, true;
      return true;
    }

    method UpdateUpstream(
      baseUrl: string, newKey: Option<string>, models: seq<string>, actor: int, nonce: string, dbOk: bool)
      returns (ok: bool)
      modifies this
      ensures (Whole(), ok)
              == Perform(cipher, old(Whole()), Call.UpdateUpstream(baseUrl, newKey, models, actor, nonce, dbOk))
    {
      var blob, key := cached.cipher, apiKey;
      if newKey.Some? {
        if newKey.value == "" {
          blob, key := None, "";
        } else {
          blob := cipher.seal(newKey.value, nonce);
          if blob.None? {
            return false;
          }
          key := newKey.value;
        }
      }
      if !dbOk {
        return false;
      }
      if row.Some? {
        row := Some(row.value.(baseUrl := baseUrl, models := models, cipher := blob, updatedBy := Some(actor)));
      }
      cached := cached.(baseUrl := baseUrl, models := models, cipher := blob, updatedBy := Some(actor));
      apiKey := key;
      return true;
    }

    method UpdateWorkerConcurrency(n: int, actor: int, dbOk: bool) returns (ok: bool)
      modifies this
      ensures (Whole(), ok) == Perform(cipher, old(Whole()), Call.UpdateWorkerConcurrency(n, actor, dbOk))
    {
      var m := n;
      if m < 1 {
        m := 1;
      }
      if m > 16 {
        m := 16;
      }
      if !dbOk {
        return false;
      }
      if row.Some? {
        row := Some(row.value.(concurrency := m, updatedBy := Some(actor)));
      }
      cached := cached.(concurrency := m);
      desired := m;
      return true;
    }

    method UpdateSiteConfig(title: string, actor: int, dbOk: bool) returns (ok: bool)
      modifies this
      ensures (Whole(), ok) == Perform(cipher, old(Whole()), Call.UpdateSiteConfig(title, actor, dbOk))
    {
      var t := TrimSpace(title);
      if t == "" {
        t := DEFAULT_TITLE;
      }
      if !dbOk {
        return false;
      }
      if row.Some? {
        row := Some(row.value.(title := t, updatedBy := Some(actor)));
      }
      cached := cached.(title := t, updatedBy := Some(actor));
      return true;
    }
  }
}
