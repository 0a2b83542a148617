/**
 * The per-key TTL cache: one file per key holding the header line
 * `expires:<minutes>` and the value, stamped with the time it was written,
 * plus the in-memory mirror of the values written during the run.
 *
 * This module holds the read side as functions of the state (the file system
 * and the mirror) and the effect of a write as a function from the old state
 * to the new one; the class in module WeatherCache performs the writes.
 */
module CacheStore {
  import opened Wrappers
  import opened JsText
  import opened Settings

  /** The JavaScript values that reach the cache. */
  datatype JsValue = Undefined | Null | Str(s: string)

  /** `String(v)`: the text a value contributes to a concatenation. */
  function Render(v: JsValue): string {
    match v
    case Undefined => "undefined"
    case Null => "null"
    case Str(s) => s
  }

  /** A cache file: its text and its modification time in milliseconds. */
  datatype File = File(content: string, mtime: int)

  /** The file system, from path to file. */
  type FileSystem = map<string, File>

  /** The cache files together with the in-memory mirror `data`. */
  datatype Store = Store(files: FileSystem, data: map<string, JsValue>)

  /** The path of a key's cache file: directory, separator, prefix, key. */
  function KeyCacheFile(cfg: Config, key: string): (path: string)
    ensures |path| == |cfg.cacheDir| + |cfg.sep| + |cfg.cachePrefix| + |key|
    ensures path[..|cfg.cacheDir|] == cfg.cacheDir
  {
    cfg.cacheDir + cfg.sep + cfg.cachePrefix + key
  }

  /** Distinct keys have distinct cache files. */
  lemma KeyCacheFileInjective(cfg: Config, k1: string, k2: string)
    requires KeyCacheFile(cfg, k1) == KeyCacheFile(cfg, k2)
    ensures k1 == k2
  {
    var base := cfg.cacheDir + cfg.sep + cfg.cachePrefix;
    assert KeyCacheFile(cfg, k1) == base + k1 && KeyCacheFile(cfg, k2) == base + k2;
    assert (base + k1)[|base|..] == k1;
    assert (base + k2)[|base|..] == k2;
  }

  /** The header line written for an expiry. */
  function Header(expiry: int): string {
    "expires:" + IntToString(expiry)
  }

  /** The text of a cache file written with `expiry` and `v`. */
  function Entry(expiry: int, v: JsValue): string {
    Header(expiry) + "\n" + Render(v)
  }

  /** The header line is a single line. */
  lemma HeaderHasNoNewline(expiry: int)
    ensures '\n' !in Header(expiry)
  {
    var h := Header(expiry);
    forall k | 0 <= k < |h| ensures h[k] != '\n' {
      if k >= 8 {
        assert h[k] == IntToString(expiry)[k - 8];
      }
    }
  }

  /** The file system after the write of key's file. */
  function WithEntry(cfg: Config, fs: FileSystem, key: string, v: JsValue, expiry: int, now: int): FileSystem {
    fs[KeyCacheFile(cfg, key) := File(Entry(expiry, v), now)]
  }

  /**
   * getFromCache: null for a missing file, the whole text when the headers are
   * asked for, otherwise the second piece of the text split at newlines with
   * limit 2, which is undefined when the text has no newline.
   */
  function FromCache(cfg: Config, fs: FileSystem, key: string, includeHeaders: bool): (r: JsValue)
    ensures r == Null <==> KeyCacheFile(cfg, key) !in fs
    ensures r == Undefined <==>
      KeyCacheFile(cfg, key) in fs && !includeHeaders && '\n' !in fs[KeyCacheFile(cfg, key)].content
    ensures r.Str? && !includeHeaders ==> '\n' !in r.s
    ensures KeyCacheFile(cfg, key) in fs && includeHeaders ==> r == Str(fs[KeyCacheFile(cfg, key)].content)
    ensures var path := KeyCacheFile(cfg, key);
      path in fs && !includeHeaders && '\n' in fs[path].content ==>
        var c := fs[path].content;
        r == Str(Split(c[IndexOf(c, '\n') + 1..], '\n')[0])
  {
    var path := KeyCacheFile(cfg, key);
    if path !in fs then Null
    else if includeHeaders then Str(fs[path].content)
    else
      var lines := SplitLimit(fs[path].content, '\n', 2);
      SplitLimitTwo(fs[path].content, '\n');
      if |lines| < 2 then Undefined else Str(lines[1])
  }

  /**
   * getCacheAge: minutes since the file was written, rounded as Math.round
   * does (to the nearest integer, halves upwards). The file must exist.
   */
  function CacheAge(cfg: Config, fs: FileSystem, key: string, now: int): (age: int)
    requires KeyCacheFile(cfg, key) in fs
    ensures var elapsed := now - fs[KeyCacheFile(cfg, key)].mtime;
      age * 60000 - 30000 <= elapsed < age * 60000 + 30000
  {
    (now - fs[KeyCacheFile(cfg, key)].mtime + 30000) / 60000
  }

  /**
   * The expiry of a header line: the second piece of the line split at colons
   * with limit 2, read as Number reads it. None where JavaScript gets undefined
   * (no colon) or NaN; comparing an age with either is false.
   */
  function HeaderExpiry(header: string): (expiry: Option<int>)
    ensures ':' !in header ==> expiry.None?
    ensures ':' in header ==>
      expiry == ToNumber(Split(header[IndexOf(header, ':') + 1..], ':')[0])
  {
    SplitLimitTwo(header, ':');
    var fields := SplitLimit(header, ':', 2);
    if |fields| < 2 then None else ToNumber(fields[1])
  }

  /** The header this cache writes reads back as the expiry it was written with. */
  lemma HeaderRoundTrip(expiry: int)
    ensures HeaderExpiry(Header(expiry)) == Some(expiry)
  {
    var digits := IntToString(expiry);
    assert Header(expiry) == "expires" + [':'] + digits;
    SplitLimitTwoAfter("expires", ':', digits);
    FirstPiece(digits, ':');
    ToNumberOfIntToString(expiry);
  }

  /**
   * isCacheExpired: a missing file or a text without a newline is expired;
   * otherwise the entry is expired when its age is at least the header's
   * expiry, and an unreadable expiry never expires.
   */
  function IsCacheExpired(cfg: Config, fs: FileSystem, key: string, now: int): (expired: bool)
    ensures KeyCacheFile(cfg, key) !in fs ==> expired
    ensures KeyCacheFile(cfg, key) in fs && '\n' !in fs[KeyCacheFile(cfg, key)].content ==> expired
  {
    var content := match FromCache(cfg, fs, key, true) case Str(s) => s case _ => "";
    var lines := SplitLimit(content, '\n', 2);
    SplitLimitTwo(content, '\n');
    if |lines| != 2 then true
    else
      match HeaderExpiry(lines[0])
      case None => false
      case Some(expiry) => CacheAge(cfg, fs, key, now) >= expiry
  }

  /**
   * The expiry rule for a file with a header line: with a readable expiry the
   * entry is expired exactly when its age has reached it (an age equal to the
   * expiry is expired); with an unreadable one it is never expired.
   */
  lemma ExpiryRule(cfg: Config, fs: FileSystem, key: string, now: int, header: string, rest: string)
    requires KeyCacheFile(cfg, key) in fs
    requires fs[KeyCacheFile(cfg, key)].content == header + "\n" + rest
    requires '\n' !in header
    ensures HeaderExpiry(header).None? ==> !IsCacheExpired(cfg, fs, key, now)
    ensures HeaderExpiry(header).Some? ==>
      (IsCacheExpired(cfg, fs, key, now) <==> CacheAge(cfg, fs, key, now) >= HeaderExpiry(header).value)
  {
    SplitLimitTwoAfter(header, '\n', rest);
  }

  /** A file this cache wrote is expired exactly when its age reaches the written expiry. */
  lemma EntryExpiry(cfg: Config, fs: FileSystem, key: string, now: int, expiry: int, v: JsValue)
    requires KeyCacheFile(cfg, key) in fs
    requires fs[KeyCacheFile(cfg, key)].content == Entry(expiry, v)
    ensures IsCacheExpired(cfg, fs, key, now) <==> CacheAge(cfg, fs, key, now) >= expiry
  {
    HeaderHasNoNewline(expiry);
    HeaderRoundTrip(expiry);
    ExpiryRule(cfg, fs, key, now, Header(expiry), Render(v));
  }

  /**
   * The read form cache(key): null when the entry is expired and the stored
   * value otherwise, which is then never undefined.
   */
  function CacheRead(cfg: Config, fs: FileSystem, key: string, now: int): (r: JsValue)
    ensures r == Null <==> IsCacheExpired(cfg, fs, key, now)
    ensures r != Undefined
  {
    if IsCacheExpired(cfg, fs, key, now) then Null else FromCache(cfg, fs, key, false)
  }

  /**
   * getValue: a fresh cached value first, then the mirror's value when the key
   * is there and not null, then the configured unknown marker.
   */
  function GetValue(cfg: Config, st: Store, key: string, now: int): (r: JsValue)
    ensures r != Null
    ensures (key in st.data ==> st.data[key] != Undefined) ==> r.Str?
  {
    var cached := CacheRead(cfg, st.files, key, now);
    var saved := if key in st.data then st.data[key] else Null;
    if cached != Null then cached
    else if saved != Null then saved
    else Str(cfg.unknown)
  }

  /** The precedence getValue follows. */
  lemma GetValuePrecedence(cfg: Config, st: Store, key: string, now: int)
    ensures !IsCacheExpired(cfg, st.files, key, now) ==>
      GetValue(cfg, st, key, now) == FromCache(cfg, st.files, key, false)
    ensures IsCacheExpired(cfg, st.files, key, now) && key in st.data && st.data[key] != Null ==>
      GetValue(cfg, st, key, now) == st.data[key]
    ensures IsCacheExpired(cfg, st.files, key, now) && (key !in st.data || st.data[key] == Null) ==>
      GetValue(cfg, st, key, now) == Str(cfg.unknown)
  {
  }

  /** isCacheExpiredMany: some key of the list is expired. */
  predicate AnyExpired(cfg: Config, fs: FileSystem, keys: seq<string>, now: int): (stale: bool)
    ensures keys == [] ==> !stale
    ensures (exists i | 0 <= i < |keys| :: KeyCacheFile(cfg, keys[i]) !in fs) ==> stale
  {
    exists i | 0 <= i < |keys| :: IsCacheExpired(cfg, fs, keys[i], now)
  }

  /**
   * The state after cache(key, v, expiry). An undefined value makes the call a
   * read, which changes nothing; otherwise the file is rewritten and the mirror
   * updated.
   */
  function Put(cfg: Config, st: Store, key: string, v: JsValue, expiry: int, now: int): Store {
    if v == Undefined then st
    else Store(WithEntry(cfg, st.files, key, v, expiry, now), st.data[key := v])
  }

  /**
   * cache(key, v, expiry) with a value sets the mirror entry and gives the key's
   * file the header and the value, stamped now; no other path appears. An
   * undefined value changes nothing.
   */
  lemma PutEffect(cfg: Config, st: Store, key: string, v: JsValue, expiry: int, now: int)
    ensures var st' := Put(cfg, st, key, v, expiry, now);
      && (v == Undefined ==> st' == st)
      && (v != Undefined ==> st'.data == st.data[key := v])
      && (v != Undefined ==>
            (KeyCacheFile(cfg, key) in st'.files && st'.files[KeyCacheFile(cfg, key)] == File(Entry(expiry, v), now)))
      && st'.files.Keys <= st.files.Keys + {KeyCacheFile(cfg, key)}
      && (forall p | p in st.files && p != KeyCacheFile(cfg, key) :: p in st'.files && st'.files[p] == st.files[p])
      && (forall k | k in st.data && k != key :: k in st'.data && st'.data[k] == st.data[k])
  {
  }

  /** The keys of a sequence of writes. */
  function KeysOf(entries: seq<(string, JsValue)>): set<string> {
    set i | 0 <= i < |entries| :: entries[i].0
  }

  /** The cache files of a set of keys. */
  function PathsOf(cfg: Config, keys: set<string>): set<string> {
    set k | k in keys :: KeyCacheFile(cfg, k)
  }

  /** The state after the writes cache(k, v, expiry) of `entries`, in order. */
  function Apply(cfg: Config, st: Store, entries: seq<(string, JsValue)>, expiry: int, now: int): Store
    decreases |entries|
  {
    if entries == [] then st
    else
      var n := |entries| - 1;
      Put(cfg, Apply(cfg, st, entries[..n], expiry, now), entries[n].0, entries[n].1, expiry, now)
  }

  /** Nothing outside the written keys' files and mirror entries changes. */
  lemma {:induction false} ApplyFrame(cfg: Config, st: Store, entries: seq<(string, JsValue)>, expiry: int, now: int)
    ensures var st' := Apply(cfg, st, entries, expiry, now);
      && (forall p | p in st.files && p !in PathsOf(cfg, KeysOf(entries)) ::
            p in st'.files && st'.files[p] == st.files[p])
      && st'.files.Keys <= st.files.Keys + PathsOf(cfg, KeysOf(entries))
      && (forall k | k in st.data && k !in KeysOf(entries) :: k in st'.data && st'.data[k] == st.data[k])
      && st'.data.Keys <= st.data.Keys + KeysOf(entries)
    decreases |entries|
  {
    if entries != [] {
      var n := |entries| - 1;
      var before := entries[..n];
      assert KeysOf(entries) == KeysOf(before) + {entries[n].0};
      ApplyFrame(cfg, st, before, expiry, now);
    }
  }

  /** Appending one write to a sequence of writes applies it last. */
  lemma ApplySnoc(cfg: Config, st: Store, entries: seq<(string, JsValue)>, key: string, v: JsValue, expiry: int, now: int)
    ensures Apply(cfg, st, entries + [(key, v)], expiry, now)
      == Put(cfg, Apply(cfg, st, entries, expiry, now), key, v, expiry, now)
  {
    assert (entries + [(key, v)])[..|entries|] == entries;
  }

  /** Applying the next write of a sequence to the state after its first k writes. */
  lemma ApplyPrefixStep(cfg: Config, st: Store, entries: seq<(string, JsValue)>, k: nat, expiry: int, now: int,
                        before: Store, key: string, v: JsValue)
    requires k < |entries| && entries[k] == (key, v)
    requires before == Apply(cfg, st, entries[..k], expiry, now)
    ensures Put(cfg, before, key, v, expiry, now) == Apply(cfg, st, entries[..k + 1], expiry, now)
  {
    assert entries[..k + 1][..k] == entries[..k];
  }

  /** No key occurs twice. */
  predicate DistinctKeys(entries: seq<(string, JsValue)>) {
    forall i, j | 0 <= i < j < |entries| :: entries[i].0 != entries[j].0
  }

  /**
   * The last write to a key that gives it a value decides its file, stamped
   * now, and its mirror entry.
   */
  lemma {:induction false} ApplyLastWriteWins(cfg: Config, st: Store, entries: seq<(string, JsValue)>, expiry: int, now: int, i: nat)
    requires i < |entries| && entries[i].1 != Undefined
    requires forall j | i < j < |entries| :: entries[j].0 != entries[i].0
    ensures var st' := Apply(cfg, st, entries, expiry, now);
      && KeyCacheFile(cfg, entries[i].0) in st'.files
      && st'.files[KeyCacheFile(cfg, entries[i].0)] == File(Entry(expiry, entries[i].1), now)
      && entries[i].0 in st'.data && st'.data[entries[i].0] == entries[i].1
    decreases |entries|
  {
    var n := |entries| - 1;
    var before := entries[..n];
    assert entries == before + [entries[n]];
    ApplySnoc(cfg, st, before, entries[n].0, entries[n].1, expiry, now);
    if i < n {
      ApplyLastWriteWins(cfg, st, before, expiry, now, i);
      if KeyCacheFile(cfg, entries[i].0) == KeyCacheFile(cfg, entries[n].0) {
        KeyCacheFileInjective(cfg, entries[i].0, entries[n].0);
      }
    }
  }

  /** A key that every write leaves undefined keeps its file and its mirror entry. */
  lemma {:induction false} ApplyKeepsUnwritten(cfg: Config, st: Store, entries: seq<(string, JsValue)>, expiry: int, now: int, key: string)
    requires forall j | 0 <= j < |entries| && entries[j].0 == key :: entries[j].1 == Undefined
    ensures var st' := Apply(cfg, st, entries, expiry, now);
      && (KeyCacheFile(cfg, key) in st'.files <==> KeyCacheFile(cfg, key) in st.files)
      && (KeyCacheFile(cfg, key) in st.files ==>
            st'.files[KeyCacheFile(cfg, key)] == st.files[KeyCacheFile(cfg, key)])
      && (key in st'.data <==> key in st.data)
      && (key in st.data ==> st'.data[key] == st.data[key])
    decreases |entries|
  {
    if entries != [] {
      var n := |entries| - 1;
      var before := entries[..n];
      assert entries == before + [entries[n]];
      ApplySnoc(cfg, st, before, entries[n].0, entries[n].1, expiry, now);
      ApplyKeepsUnwritten(cfg, st, before, expiry, now, key);
      if entries[n].0 != key && KeyCacheFile(cfg, key) == KeyCacheFile(cfg, entries[n].0) {
        KeyCacheFileInjective(cfg, key, entries[n].0);
      }
    }
  }

  /** Writing a key's file gives back what was written. */
  lemma WriteThenRead(cfg: Config, fs: FileSystem, key: string, v: JsValue, expiry: int, now: int)
    ensures FromCache(cfg, WithEntry(cfg, fs, key, v, expiry, now), key, true) == Str(Entry(expiry, v))
    ensures '\n' !in Render(v) ==>
      FromCache(cfg, WithEntry(cfg, fs, key, v, expiry, now), key, false) == Str(Render(v))
    ensures '\n' in Render(v) ==>
      FromCache(cfg, WithEntry(cfg, fs, key, v, expiry, now), key, false)
        == Str(Render(v)[..IndexOf(Render(v), '\n')])
  {
    HeaderHasNoNewline(expiry);
    SplitLimitTwoAfter(Header(expiry), '\n', Render(v));
    FirstPiece(Render(v), '\n');
  }

  /**
   * A key written at t0 with `expiry` is expired at t exactly when
   * round((t - t0) / 60000) >= expiry.
   */
  lemma WriteThenExpiry(cfg: Config, fs: FileSystem, key: string, v: JsValue, expiry: int, t0: int, t: int)
    ensures IsCacheExpired(cfg, WithEntry(cfg, fs, key, v, expiry, t0), key, t)
        <==> (t - t0 + 30000) / 60000 >= expiry
  {
    EntryExpiry(cfg, WithEntry(cfg, fs, key, v, expiry, t0), key, t, expiry, v);
  }

  /** With a lifetime of 0 (the tests' configuration) every read at or after the write is expired. */
  lemma ZeroLifetimeAlwaysExpired(cfg: Config, fs: FileSystem, key: string, v: JsValue, t0: int, t: int)
    requires t >= t0
    ensures IsCacheExpired(cfg, WithEntry(cfg, fs, key, v, 0, t0), key, t)
  {
    WriteThenExpiry(cfg, fs, key, v, 0, t0, t);
  }

  /**
   * After cache(key, v) at t0, getValue(key) at t gives the written text while
   * the entry is fresh (its first line, for a multi-line value), and the
   * mirror's value once it is expired, or the unknown marker for null.
   */
  lemma WriteThenGetValue(cfg: Config, st: Store, key: string, v: JsValue, expiry: int, t0: int, t: int)
    requires v != Undefined
    ensures var st' := Put(cfg, st, key, v, expiry, t0);
      var age := (t - t0 + 30000) / 60000;
      && (age < expiry && '\n' !in Render(v) ==> GetValue(cfg, st', key, t) == Str(Render(v)))
      && (age < expiry && '\n' in Render(v) ==>
            GetValue(cfg, st', key, t) == Str(Render(v)[..IndexOf(Render(v), '\n')]))
      && (age >= expiry && v != Null ==> GetValue(cfg, st', key, t) == v)
      && (age >= expiry && v == Null ==> GetValue(cfg, st', key, t) == Str(cfg.unknown))
  {
    WriteThenExpiry(cfg, st.files, key, v, expiry, t0, t);
    WriteThenRead(cfg, st.files, key, v, expiry, t0);
  }

  /** A write leaves every other key's file, expiry and value as they were. */
  lemma WriteLeavesOtherKeys(cfg: Config, st: Store, key: string, v: JsValue, expiry: int, now: int, other: string, t: int)
    requires other != key
    ensures var st' := Put(cfg, st, key, v, expiry, now);
      && (KeyCacheFile(cfg, other) in st'.files <==> KeyCacheFile(cfg, other) in st.files)
      && (KeyCacheFile(cfg, other) in st.files ==>
            st'.files[KeyCacheFile(cfg, other)] == st.files[KeyCacheFile(cfg, other)])
      && FromCache(cfg, st'.files, other, true) == FromCache(cfg, st.files, other, true)
      && FromCache(cfg, st'.files, other, false) == FromCache(cfg, st.files, other, false)
      && IsCacheExpired(cfg, st'.files, other, t) == IsCacheExpired(cfg, st.files, other, t)
      && GetValue(cfg, st', other, t) == GetValue(cfg, st, other, t)
  {
    if KeyCacheFile(cfg, other) == KeyCacheFile(cfg, key) {
      KeyCacheFileInjective(cfg, other, key);
    }
  }
}
