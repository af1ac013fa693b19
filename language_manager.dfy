/** The lookup side of the language manager (LanguageManager.java): merging the
    default messages into each loaded language file, the lookup chain current
    language → English → "Message not found", placeholder replacement, the
    prefix, mob names, message types and number tiers, all answered through
    the bounded LRU cache.

    A lookup the source would abort with a NullPointerException (no current
    language file, or a missing English file when the fallback needs it)
    answers None. The cache is keyed by the request itself (a CacheKey), not by
    the source's concatenated strings, which can collide; with these keys every
    cached value is the answer its request gets without the cache. */
module Languages {
  import opened Wrappers
  import opened JavaString
  import opened LruCache

  /** A language file: its flattened paths and their string values. */
  type Config = map<string, string>

  const ENGLISH: string := "en"
  const NOT_FOUND: string := "Message not found: "
  const PREFIX_PATH: string := "prefix"
  const MOB_NAMES: string := "mob_names."
  const FORMAT_NUMBER: string := "format-number."

  /** The loaded languages, the current language file and its code. */
  datatype Catalog = Catalog(languages: map<string, Config>, messages: Option<Config>, code: string)

  /** The state `loadLanguages` leaves: the current file is the loaded file of
      the current code, and when there is none the code is English. */
  ghost predicate Loaded(cat: Catalog) {
    && (cat.messages.Some? ==> cat.code in cat.languages && cat.messages.value == cat.languages[cat.code])
    && (cat.messages.None? ==> cat.code == ENGLISH && ENGLISH !in cat.languages)
  }

  // ---------------------------------------------------------------- merging defaults

  /** The language files as `loadLanguages` keeps them: each merged with the
      defaults, a later file of the same code replacing an earlier one. */
  function MergedFiles(files: seq<(string, Config)>, defaults: Config): map<string, Config> {
    if files == [] then map[]
    else
      var last := files[|files| - 1];
      MergedFiles(files[..|files| - 1], defaults)[last.0 := defaults + last.1]
  }

  /** Every merged language has every default key and keeps its own values. */
  lemma {:induction false} MergedFilesComplete(files: seq<(string, Config)>, defaults: Config, code: string)
    requires code in MergedFiles(files, defaults)
    ensures defaults.Keys <= MergedFiles(files, defaults)[code].Keys
    ensures exists i | 0 <= i < |files| :: files[i].0 == code
              && MergedFiles(files, defaults)[code] == defaults + files[i].1
  {
    var last := files[|files| - 1];
    if code != last.0 {
      MergedFilesComplete(files[..|files| - 1], defaults, code);
      var i :| 0 <= i < |files| - 1 && files[..|files| - 1][i].0 == code
               && MergedFiles(files[..|files| - 1], defaults)[code] == defaults + files[..|files| - 1][i].1;
      assert files[i] == files[..|files| - 1][i];
    } else {
      assert files[|files| - 1] == last;
    }
  }

  /** The codes of the files a merge changed, which are written back. */
  function UpdatedFiles(files: seq<(string, Config)>, defaults: Config): seq<string> {
    if files == [] then []
    else
      var last := files[|files| - 1];
      UpdatedFiles(files[..|files| - 1], defaults)
        + (if !(defaults.Keys <= last.1.Keys) then [last.0] else [])
  }

  /** The merge loop's state with the default keys in `todo` still to visit. */
  ghost predicate MergeProgress(config: Config, defaults: Config, todo: set<string>, merged: Config, changed: bool) {
    && todo <= defaults.Keys
    && (forall k :: k in merged <==> k in config || (k in defaults && k !in todo))
    && (forall k | k in config :: merged[k] == config[k])
    && (forall k | k in merged && k !in config :: k in defaults && merged[k] == defaults[k])
    && (changed <==> !(defaults.Keys - todo <= config.Keys))
  }

  lemma MergeStep(config: Config, defaults: Config, todo: set<string>, merged: Config, changed: bool, key: string)
    requires MergeProgress(config, defaults, todo, merged, changed) && key in todo
    ensures key !in merged <==> key !in config
    ensures MergeProgress(config, defaults, todo - {key},
                          if key !in merged then merged[key := defaults[key]] else merged,
                          changed || key !in merged)
  {
  }

  /** Once every default key is visited, `merged` keeps `config`'s values, takes
      the defaults for the rest, and so is `defaults + config`. */
  lemma MergeDone(config: Config, defaults: Config, merged: Config, changed: bool)
    requires MergeProgress(config, defaults, {}, merged, changed)
    ensures merged.Keys == config.Keys + defaults.Keys
    ensures forall k | k in config :: merged[k] == config[k]
    ensures forall k | k in defaults && k !in config :: merged[k] == defaults[k]
    ensures changed <==> !(defaults.Keys <= config.Keys)
    ensures merged == defaults + config
  {
    assert defaults.Keys - {} == defaults.Keys;
  }

  lemma MergedFilesStep(files: seq<(string, Config)>, i: nat, defaults: Config)
    requires i < |files|
    ensures MergedFiles(files[..i + 1], defaults) == MergedFiles(files[..i], defaults)[files[i].0 := defaults + files[i].1]
    ensures UpdatedFiles(files[..i + 1], defaults)
              == UpdatedFiles(files[..i], defaults) + (if !(defaults.Keys <= files[i].1.Keys) then [files[i].0] else [])
  {
    assert files[..i + 1][..i] == files[..i];
  }

  /** The language `loadLanguages` settles on: the configured one when its file
      loaded, else English, else a new English file holding the defaults when
      it can be saved, else none. */
  function SelectLanguage(loaded: map<string, Config>, configuredCode: string, defaults: Config,
                          englishSaveSucceeds: bool): (c: Catalog)
    ensures c.code == configuredCode || c.code == ENGLISH
    ensures configuredCode in loaded ==> c.code == configuredCode
    ensures c.messages.Some? ==> c.code in c.languages && c.messages.value == c.languages[c.code]
    ensures c.messages.None? <==> configuredCode !in loaded && ENGLISH !in loaded && !englishSaveSucceeds
  {
    if configuredCode in loaded then Catalog(loaded, Some(loaded[configuredCode]), configuredCode)
    else if ENGLISH in loaded then Catalog(loaded, Some(loaded[ENGLISH]), ENGLISH)
    else if englishSaveSucceeds then Catalog(loaded[ENGLISH := defaults], Some(defaults), ENGLISH)
    else Catalog(loaded, None, ENGLISH)
  }

  /** The file created when no English file exists for the fallback. */
  function CreatedFiles(loaded: map<string, Config>, configuredCode: string, englishSaveSucceeds: bool): seq<string> {
    if configuredCode !in loaded && ENGLISH !in loaded && englishSaveSucceeds then [ENGLISH] else []
  }

  /** The choice is consistent, prefers the configured language, falls back only
      to English, adds at most the English file, and keeps every language
      complete with respect to the defaults. */
  lemma SelectLanguageLoaded(loaded: map<string, Config>, configuredCode: string, defaults: Config,
                             englishSaveSucceeds: bool)
    requires forall c | c in loaded :: defaults.Keys <= loaded[c].Keys
    ensures var cat := SelectLanguage(loaded, configuredCode, defaults, englishSaveSucceeds);
            && Loaded(cat)
            && (forall c | c in cat.languages :: defaults.Keys <= cat.languages[c].Keys)
            && (configuredCode in loaded ==> cat.code == configuredCode && cat.languages == loaded)
            && (configuredCode !in loaded ==> cat.code == ENGLISH)
            && cat.languages.Keys <= loaded.Keys + {ENGLISH}
            && (forall c | c in loaded :: c in cat.languages && cat.languages[c] == loaded[c])
            && (cat.messages.None? <==> configuredCode !in loaded && ENGLISH !in loaded && !englishSaveSucceeds)
  {
  }

  // ---------------------------------------------------------------- lookups

  /** An uncached `getMessage(path)`: the current language's value, else
      English's (when the current language is not English), else the
      not-found text. Found values are colorized; the not-found text is not. */
  function Lookup(cat: Catalog, colorize: string -> string, path: string): (r: Option<string>)
    ensures cat.messages.None? ==> r.None?
    ensures cat.messages.Some? && path in cat.messages.value ==>
              r == Some(colorize(cat.messages.value[path]))
    ensures cat.messages.Some? && path !in cat.messages.value && cat.code != ENGLISH ==>
              && (ENGLISH !in cat.languages ==> r.None?)
              && (ENGLISH in cat.languages && path in cat.languages[ENGLISH] ==>
                    r == Some(colorize(cat.languages[ENGLISH][path])))
              && (ENGLISH in cat.languages && path !in cat.languages[ENGLISH] ==> r == Some(NOT_FOUND + path))
    ensures cat.messages.Some? && path !in cat.messages.value && cat.code == ENGLISH ==>
              r == Some(NOT_FOUND + path)
  {
    match cat.messages
    case None => None
    case Some(messages) =>
      if path in messages then Some(colorize(messages[path]))
      else if cat.code != ENGLISH then
        if ENGLISH !in cat.languages then None
        else if path in cat.languages[ENGLISH] then Some(colorize(cat.languages[ENGLISH][path]))
        else Some(NOT_FOUND + path)
      else Some(NOT_FOUND + path)
  }

  /** Once every language carries the defaults, a default key is always found in
      the current language: it never falls back and never reads "not found". */
  lemma DefaultKeysFound(cat: Catalog, colorize: string -> string, defaults: Config, path: string)
    requires Loaded(cat) && cat.messages.Some?
    requires forall c | c in cat.languages :: defaults.Keys <= cat.languages[c].Keys
    requires path in defaults
    ensures Lookup(cat, colorize, path) == Some(colorize(cat.messages.value[path]))
  {
    assert defaults.Keys <= cat.languages[cat.code].Keys;
  }

  /** `getLocalizedMobName` uncached: the current file's entry, else the English
      file's, else the type name. The source compares the language enum with the
      string "en", which never matches, so the English file is consulted even
      when English is current. Mob names are not colorized. */
  function MobName(cat: Catalog, typeName: string): (r: Option<string>)
    ensures cat.messages.Some? && MOB_NAMES + typeName in cat.messages.value ==>
              r == Some(cat.messages.value[MOB_NAMES + typeName])
    ensures cat.messages.Some? && ENGLISH in cat.languages ==> r.Some?
    ensures cat.messages.None? ==> r.None?
  {
    var path := MOB_NAMES + typeName;
    match cat.messages
    case None => None
    case Some(messages) =>
      if path in messages then Some(messages[path])
      else if ENGLISH !in cat.languages then None
      else if path in cat.languages[ENGLISH] then Some(cat.languages[ENGLISH][path])
      else Some(typeName)
  }

  /** The mob-name lookup with the English fallback only for other languages. */
  function IntendedMobName(cat: Catalog, typeName: string): Option<string> {
    var path := MOB_NAMES + typeName;
    match cat.messages
    case None => None
    case Some(messages) =>
      if path in messages then Some(messages[path])
      else if cat.code == ENGLISH then Some(typeName)
      else if ENGLISH !in cat.languages then None
      else if path in cat.languages[ENGLISH] then Some(cat.languages[ENGLISH][path])
      else Some(typeName)
  }

  /** The always-failing comparison is harmless: when English is current, the
      extra English lookup reads the same file and misses again. */
  lemma MobNameAsIntended(cat: Catalog, typeName: string)
    requires Loaded(cat)
    ensures MobName(cat, typeName) == IntendedMobName(cat, typeName)
  {
  }

  /** The prefix joined to a message: the bare message when the prefix is empty. */
  function JoinPrefix(prefix: string, message: string): (r: string)
    ensures prefix == [] ==> r == message
    ensures prefix != [] ==> |r| == |prefix| + 1 + |message| && r[..|prefix|] == prefix && r[|prefix|] == ' '
    ensures r[|r| - |message|..] == message
  {
    if prefix == [] then message else prefix + " " + message
  }

  // ---------------------------------------------------------------- replacements

  /** The varargs replacement: `replacements[i] → replacements[i + 1]` for even
      `i`, in order; a trailing unpaired element is ignored. */
  function ApplyPairs(message: string, replacements: seq<string>): string
    decreases |replacements|
  {
    if |replacements| < 2 then message
    else ApplyPairs(Replace(message, replacements[0], replacements[1]), replacements[2..])
  }

  /** A trailing unpaired element changes nothing. */
  lemma {:induction false} ApplyPairsIgnoresTrailing(message: string, replacements: seq<string>)
    requires |replacements| % 2 == 1
    ensures ApplyPairs(message, replacements) == ApplyPairs(message, replacements[..|replacements| - 1])
    decreases |replacements|
  {
    if |replacements| >= 3 {
      var rest := replacements[2..];
      assert replacements[..|replacements| - 1][2..] == rest[..|rest| - 1];
      ApplyPairsIgnoresTrailing(Replace(message, replacements[0], replacements[1]), rest);
    }
  }

  /** Pairs that replace a placeholder by itself change nothing. */
  lemma {:induction false} ApplyPairsIdentity(message: string, replacements: seq<string>)
    requires forall i | 0 <= i < |replacements| - 1 && i % 2 == 0 :: replacements[i] == replacements[i + 1]
    ensures ApplyPairs(message, replacements) == message
    decreases |replacements|
  {
    if |replacements| >= 2 {
      ReplaceSelf(message, replacements[0]);
      var rest := replacements[2..];
      forall i | 0 <= i < |rest| - 1 && i % 2 == 0 ensures rest[i] == rest[i + 1] {
        assert rest[i] == replacements[i + 2] && rest[i + 1] == replacements[i + 3];
      }
      ApplyPairsIdentity(message, rest);
    }
  }

  /** The map overload: each entry's key replaced by its value, in iteration order. */
  function ApplyEntries(message: string, entries: seq<(string, string)>): string
    decreases |entries|
  {
    if entries == [] then message
    else ApplyEntries(Replace(message, entries[0].0, entries[0].1), entries[1..])
  }

  /** A map's entries, key then value, as one list. */
  function Flatten(entries: seq<(string, string)>): (r: seq<string>)
    ensures |r| == 2 * |entries|
  {
    if entries == [] then [] else [entries[0].0, entries[0].1] + Flatten(entries[1..])
  }

  /** The concatenation of a list of strings. */
  function Concat(parts: seq<string>): string {
    if parts == [] then [] else parts[0] + Concat(parts[1..])
  }

  /** The map overload is the varargs overload on the flattened entries. */
  lemma {:induction false} ApplyEntriesIsPairs(message: string, entries: seq<(string, string)>)
    ensures ApplyEntries(message, entries) == ApplyPairs(message, Flatten(entries))
    decreases |entries|
  {
    if entries != [] {
      var flat := Flatten(entries);
      assert flat[0] == entries[0].0 && flat[1] == entries[0].1;
      assert flat[2..] == Flatten(entries[1..]);
      ApplyEntriesIsPairs(Replace(message, entries[0].0, entries[0].1), entries[1..]);
    }
  }

  /** The entries of a replacement map in its iteration order. */
  ghost predicate IterationOrder(order: seq<string>, replacements: map<string, string>) {
    && (forall i | 0 <= i < |order| :: order[i] in replacements)
    && (forall k | k in replacements :: k in order)
    && (forall i, j | 0 <= i < j < |order| :: order[i] != order[j])
  }

  function EntriesIn(replacements: map<string, string>, order: seq<string>): (r: seq<(string, string)>)
    requires forall i | 0 <= i < |order| :: order[i] in replacements
    ensures |r| == |order|
    ensures forall i | 0 <= i < |order| :: r[i] == (order[i], replacements[order[i]])
  {
    if order == [] then [] else [(order[0], replacements[order[0]])] + EntriesIn(replacements, order[1..])
  }

  // ---------------------------------------------------------------- message types and numbers

  datatype MessageType = CHAT | ACTION_BAR | BOTH

  /** `MessageType.valueOf` */
  function ParseMessageType(name: string): (r: Option<MessageType>)
    ensures r == Some(CHAT) <==> name == "CHAT"
    ensures r == Some(ACTION_BAR) <==> name == "ACTION_BAR"
    ensures r == Some(BOTH) <==> name == "BOTH"
  {
    if name == "CHAT" then Some(CHAT)
    else if name == "ACTION_BAR" then Some(ACTION_BAR)
    else if name == "BOTH" then Some(BOTH)
    else None
  }

  function TypeName(t: MessageType): string {
    match t
    case CHAT => "CHAT"
    case ACTION_BAR => "ACTION_BAR"
    case BOTH => "BOTH"
  }

  /** `getMessageType`: the upper-cased `<path>.type` entry, CHAT when it is missing
      or names no type. */
  function MessageTypeOf(messages: Config, path: string): (t: MessageType)
    ensures t != CHAT ==> path + ".type" in messages && ToUpperCase(messages[path + ".type"]) == TypeName(t)
  {
    var typeStr := if path + ".type" in messages then messages[path + ".type"] else "CHAT";
    ParseMessageType(ToUpperCase(typeStr)).GetOr(CHAT)
  }

  /** A `.type` entry naming a type in any letter case selects that type. */
  lemma MessageTypeNamed(messages: Config, path: string, t: MessageType)
    requires path + ".type" in messages && ToUpperCase(messages[path + ".type"]) == TypeName(t)
    ensures MessageTypeOf(messages, path) == t
  {
  }

  /** A missing or unrecognised `.type` entry falls back to CHAT. */
  lemma MessageTypeDefault(messages: Config, path: string)
    requires path + ".type" in messages ==>
               forall t: MessageType :: ToUpperCase(messages[path + ".type"]) != TypeName(t)
    ensures MessageTypeOf(messages, path) == CHAT
  {
    if path + ".type" in messages {
      var upper := ToUpperCase(messages[path + ".type"]);
      assert upper != TypeName(CHAT) && upper != TypeName(ACTION_BAR) && upper != TypeName(BOTH);
    }
  }

  datatype NumberTier = Trillion | Billion | Million | Thousand | Units

  /** `formatNumber`'s choice of template. */
  function Tier(n: int): (t: NumberTier)
    ensures t == Trillion <==> n >= 1_000_000_000_000
    ensures t == Billion <==> 1_000_000_000 <= n < 1_000_000_000_000
    ensures t == Million <==> 1_000_000 <= n < 1_000_000_000
    ensures t == Thousand <==> 1_000 <= n < 1_000_000
    ensures t == Units <==> n < 1_000
  {
    if n >= 1_000_000_000_000 then Trillion
    else if n >= 1_000_000_000 then Billion
    else if n >= 1_000_000 then Million
    else if n >= 1_000 then Thousand
    else Units
  }

  function TierKey(t: NumberTier): string {
    match t
    case Trillion => "trillion"
    case Billion => "billion"
    case Million => "million"
    case Thousand => "thousand"
    case Units => "default"
  }

  /** What the shown number is divided by. */
  function Divisor(t: NumberTier): int {
    match t
    case Trillion => 1_000_000_000_000
    case Billion => 1_000_000_000
    case Million => 1_000_000
    case Thousand => 1_000
    case Units => 1
  }

  function Rank(t: NumberTier): nat {
    match t
    case Units => 0
    case Thousand => 1
    case Million => 2
    case Billion => 3
    case Trillion => 4
  }

  /** A larger number never gets a smaller unit. */
  lemma TierMonotone(n: int, m: int)
    requires n <= m
    ensures Rank(Tier(n)) <= Rank(Tier(m))
  {
  }

  /** The scaled value an abbreviated number hands to the formatter is at least 1,
      and below 1000 unless it is in trillions. The formatter's rounding ("%.0f"
      from 10 on) can still show 1000: 999_999 becomes "1000K". */
  lemma TierScaledRange(n: int)
    requires Tier(n) != Units
    ensures (n as real) / (Divisor(Tier(n)) as real) >= 1.0
    ensures Tier(n) != Trillion ==> (n as real) / (Divisor(Tier(n)) as real) < 1000.0
  {
    var d := Divisor(Tier(n)) as real;
    assert d > 0.0;
    assert n as real >= d;
    assert Tier(n) != Trillion ==> n as real < 1000.0 * d;
  }

  /** The template and the value `formatNumber` hands to `String.format`. */
  datatype NumberFormat = NumberFormat(template: string, value: real)

  // ---------------------------------------------------------------- cache keys

  /** The replacements a request carries. */
  datatype Subst = NoSubst | Pairs(replacements: seq<string>) | Entries(entries: seq<(string, string)>)

  /** One cached request: a message (with or without the prefix and replacements)
      or a mob name, together with the language it was asked in. */
  datatype CacheKey =
    | MessageKey(prefixed: bool, path: string, subst: Subst, code: string)
    | MobKey(typeName: string, code: string)

  function Substitute(message: string, subst: Subst): string {
    match subst
    case NoSubst => message
    case Pairs(replacements) => ApplyPairs(message, replacements)
    case Entries(entries) => ApplyEntries(message, entries)
  }

  /** An unprefixed request without the cache: the lookup, then the replacements. */
  function PlainAnswer(cat: Catalog, colorize: string -> string, path: string, subst: Subst): Option<string> {
    match Lookup(cat, colorize, path)
    case None => None
    case Some(m) => Some(Substitute(m, subst))
  }

  /** The colorized `prefix` entry of the current file, empty when it is missing. */
  function PrefixOf(messages: Config, colorize: string -> string): string {
    colorize(if PREFIX_PATH in messages then messages[PREFIX_PATH] else "")
  }

  /** A prefixed request without the cache: the prefix read first, then the
      unprefixed answer joined to it. */
  function PrefixedAnswer(cat: Catalog, colorize: string -> string, path: string, subst: Subst): Option<string> {
    match cat.messages
    case None => None
    case Some(messages) =>
      match PlainAnswer(cat, colorize, path, subst)
      case None => None
      case Some(m) => Some(JoinPrefix(PrefixOf(messages, colorize), m))
  }

  /** What a request answers without the cache. */
  function Answer(cat: Catalog, colorize: string -> string, key: CacheKey): Option<string> {
    match key
    case MobKey(typeName, _) => MobName(cat, typeName)
    case MessageKey(prefixed, path, subst, _) =>
      if prefixed then PrefixedAnswer(cat, colorize, path, subst) else PlainAnswer(cat, colorize, path, subst)
  }

  /** The string the source uses as the cache key of a request. */
  function SourceCacheKey(key: CacheKey): string {
    match key
    case MobKey(typeName, code) => "mob_" + typeName + "_" + code
    case MessageKey(prefixed, path, subst, code) =>
      (if prefixed then "prefix_" else "")
        + match subst
          case NoSubst => path + "_" + code
          case Pairs(replacements) => path + Concat(replacements)
          case Entries(entries) => path + Concat(Flatten(entries))
  }

  /** The source's keys collide: `getMessage("a", "b", "c")` and
      `getMessage("ab", "c")` both use "abc", so once the first is cached the
      second is answered with it although its own answer differs. */
  lemma SourceCacheKeysCollide()
    ensures var cat := Catalog(map[ENGLISH := map["a" := "b", "ab" := "xyz"]],
                               Some(map["a" := "b", "ab" := "xyz"]), ENGLISH);
            var first := MessageKey(false, "a", Pairs(["b", "c"]), ENGLISH);
            var second := MessageKey(false, "ab", Pairs(["c"]), ENGLISH);
            var cached := Inserted([], SourceCacheKey(first), "c");
            && SourceCacheKey(first) == SourceCacheKey(second)
            && Answer(cat, s => s, first) == Some("c")
            && Find(cached, SourceCacheKey(second)) == Some("c")
            && Answer(cat, s => s, second) == Some("xyz")
  {
    var first := MessageKey(false, "a", Pairs(["b", "c"]), ENGLISH);
    var second := MessageKey(false, "ab", Pairs(["c"]), ENGLISH);
    assert Concat(["b", "c"]) == "bc" by {
      assert Concat(["c"]) == "c";
    }
    assert Concat(["c"]) == "c";
    assert SourceCacheKey(first) == "abc";
    assert SourceCacheKey(second) == "abc";
    assert Replace("b", "b", "c") == "c" by {
      assert "b"[1..] == [];
    }
  }

  /** Every cached value is its request's uncached answer. */
  ghost predicate CoherentCache(cat: Catalog, colorize: string -> string, es: seq<(CacheKey, string)>) {
    forall i | 0 <= i < |es| :: Answer(cat, colorize, es[i].0) == Some(es[i].1)
  }

  /** So a cache hit answers what the lookup would. */
  lemma CoherentFind(cat: Catalog, colorize: string -> string, es: seq<(CacheKey, string)>, key: CacheKey)
    requires CoherentCache(cat, colorize, es)
    ensures Find(es, key).Some? ==> Answer(cat, colorize, key) == Find(es, key)
  {
    if Find(es, key).Some? {
      var i :| 0 <= i < |es| && es[i] == (key, Find(es, key).value);
    }
  }

  /** Storing an answer under its own request keeps the cache coherent. */
  lemma CoherentInserted(cat: Catalog, colorize: string -> string, es: seq<(CacheKey, string)>,
                         key: CacheKey, value: string)
    requires CoherentCache(cat, colorize, es)
    requires Answer(cat, colorize, key) == Some(value)
    ensures CoherentCache(cat, colorize, Inserted(es, key, value))
  {
    var without := Without(es, key);
    var grown := without + [(key, value)];
    forall i | 0 <= i < |grown| ensures Answer(cat, colorize, grown[i].0) == Some(grown[i].1) {
      if i < |without| {
        var j :| 0 <= j < |es| && es[j] == without[i];
      }
    }
  }

  /** A lookup that hits keeps the cache coherent. */
  lemma CoherentTouched(cat: Catalog, colorize: string -> string, es: seq<(CacheKey, string)>, key: CacheKey)
    requires CoherentCache(cat, colorize, es)
    ensures CoherentCache(cat, colorize, Touched(es, key))
  {
    if Find(es, key).Some? {
      CoherentFind(cat, colorize, es, key);
      var without := Without(es, key);
      var t := Touched(es, key);
      forall i | 0 <= i < |t| ensures Answer(cat, colorize, t[i].0) == Some(t[i].1) {
        if i < |without| {
          var j :| 0 <= j < |es| && es[j] == without[i];
        }
      }
    }
  }

  // ---------------------------------------------------------------- the manager

  class LanguageManager {
    const defaultMessages: Config
    /** `colorize`, a library call, taken as given. */
    const colorize: string -> string
    const messageCache: MessageCache<CacheKey, string>
    var languageMessages: map<string, Config>
    var messages: Option<Config>
    var currentCode: string
    /** The language files written back, in order. */
    ghost var savedFiles: seq<string>

    function State(): Catalog
      reads this
    {
      Catalog(languageMessages, messages, currentCode)
    }

    ghost predicate Valid()
      reads this, messageCache
    {
      && messageCache.Valid()
      && CoherentCache(State(), colorize, messageCache.entries)
      && Loaded(State())
      && (forall c | c in languageMessages :: defaultMessages.Keys <= languageMessages[c].Keys)
    }

    /** The constructor loads the languages. */
    constructor (defaults: Config, colorize: string -> string, files: seq<(string, Config)>,
                 configuredCode: string, englishSaveSucceeds: bool)
      ensures Valid()
      ensures fresh(messageCache)
      ensures defaultMessages == defaults && this.colorize == colorize
      ensures messageCache.entries == []
      ensures State() == SelectLanguage(MergedFiles(files, defaults), configuredCode, defaults, englishSaveSucceeds)
      ensures savedFiles == UpdatedFiles(files, defaults)
                              + CreatedFiles(MergedFiles(files, defaults), configuredCode, englishSaveSucceeds)
    {
      defaultMessages := defaults;
      this.colorize := colorize;
      messageCache := new MessageCache();
      languageMessages := map[];
      messages := None;
      currentCode := ENGLISH;
      savedFiles := [];
      new;
      LoadLanguages(files, configuredCode, englishSaveSucceeds);
    }

    /** `mergeDefaultMessages`: adds every missing default key; reports whether any was missing. */
    static method MergeDefaultMessages(config: Config, defaults: Config) returns (merged: Config, changed: bool)
      ensures merged.Keys == config.Keys + defaults.Keys
      ensures forall k | k in config :: merged[k] == config[k]
      ensures forall k | k in defaults && k !in config :: merged[k] == defaults[k]
      ensures changed <==> !(defaults.Keys <= config.Keys)
      ensures merged == defaults + config
    {
      merged, changed := config, false;
      var todo := defaults.Keys;
      while todo != {}
        invariant MergeProgress(config, defaults, todo, merged, changed)
        decreases |todo|
      {
        var key :| key in todo;
        MergeStep(config, defaults, todo, merged, changed, key);
        if key !in merged {
          merged := merged[key := defaults[key]];
          changed := true;
        }
        todo := todo - {key};
      }
      MergeDone(config, defaults, merged, changed);
    }

    /** `loadLanguages` (and `reload`): empties the cache, loads every file merged
        with the defaults (writing back the ones that changed), then picks the
        configured language, else English, else a new English file of defaults. */
    method LoadLanguages(files: seq<(string, Config)>, configuredCode: string, englishSaveSucceeds: bool)
      requires messageCache.Valid()
      modifies this, messageCache
      ensures Valid()
      ensures messageCache.entries == []
      ensures State() == SelectLanguage(MergedFiles(files, defaultMessages), configuredCode, defaultMessages,
                                        englishSaveSucceeds)
      ensures savedFiles == old(savedFiles) + UpdatedFiles(files, defaultMessages)
                              + CreatedFiles(MergedFiles(files, defaultMessages), configuredCode, englishSaveSucceeds)
    {
      messageCache.Clear();
      LoadFiles(files);
      SelectCurrent(configuredCode, englishSaveSucceeds);
      forall c | c in MergedFiles(files, defaultMessages)
        ensures defaultMessages.Keys <= MergedFiles(files, defaultMessages)[c].Keys
      {
        MergedFilesComplete(files, defaultMessages, c);
      }
      SelectLanguageLoaded(MergedFiles(files, defaultMessages), configuredCode, defaultMessages, englishSaveSucceeds);
    }

    /** The file loop of `loadLanguages`. */
    method LoadFiles(files: seq<(string, Config)>)
      modifies this`languageMessages, this`savedFiles
      ensures languageMessages == MergedFiles(files, defaultMessages)
      ensures savedFiles == old(savedFiles) + UpdatedFiles(files, defaultMessages)
    {
      languageMessages := map[];
      var i := 0;
      while i < |files|
        invariant 0 <= i <= |files|
        invariant languageMessages == MergedFiles(files[..i], defaultMessages)
        invariant savedFiles == old(savedFiles) + UpdatedFiles(files[..i], defaultMessages)
      {
        MergedFilesStep(files, i, defaultMessages);
        var merged, hasChanges := MergeDefaultMessages(files[i].1, defaultMessages);
        if hasChanges {
          savedFiles := savedFiles + [files[i].0];
        }
        languageMessages := languageMessages[files[i].0 := merged];
        i := i + 1;
      }
      assert files[..i] == files;
    }

    /** The language choice at the end of `loadLanguages`. */
    method SelectCurrent(configuredCode: string, englishSaveSucceeds: bool)
      modifies this`languageMessages, this`savedFiles, this`messages, this`currentCode
      ensures State() == SelectLanguage(old(languageMessages), configuredCode, defaultMessages, englishSaveSucceeds)
      ensures savedFiles == old(savedFiles) + CreatedFiles(old(languageMessages), configuredCode, englishSaveSucceeds)
    {
      currentCode := configuredCode;
      if currentCode in languageMessages {
        messages := Some(languageMessages[currentCode]);
      } else {
        currentCode := ENGLISH;
        if ENGLISH in languageMessages {
          messages := Some(languageMessages[ENGLISH]);
        } else if englishSaveSucceeds {
          languageMessages := languageMessages[ENGLISH := defaultMessages];
          savedFiles := savedFiles + [ENGLISH];
          messages := Some(defaultMessages);
        } else {
          messages := None;
        }
      }
    }

    /** A cache lookup. */
    method Cached(key: CacheKey) returns (hit: Option<string>)
      requires Valid()
      modifies messageCache
      ensures Valid()
      ensures hit.Some? ==> hit == Answer(State(), colorize, key) && Find(messageCache.entries, key) == hit
    {
      CoherentTouched(State(), colorize, messageCache.entries, key);
      CoherentFind(State(), colorize, messageCache.entries, key);
      TouchedKeepsContents(messageCache.entries, key, key);
      hit := messageCache.Get(key);
    }

    /** Caches an answer under its request. */
    method Store(key: CacheKey, value: string)
      requires Valid()
      requires Answer(State(), colorize, key) == Some(value)
      modifies messageCache
      ensures Valid()
      ensures Find(messageCache.entries, key) == Some(value)
    {
      CoherentInserted(State(), colorize, messageCache.entries, key, value);
      InsertedFinds(messageCache.entries, key, value, key);
      messageCache.Put(key, value);
    }

    /** `getMessage(path)` */
    method GetMessage(path: string) returns (r: Option<string>)
      requires Valid()
      modifies messageCache
      ensures Valid()
      ensures r == Lookup(State(), colorize, path)
      ensures r.Some? ==> Find(messageCache.entries, MessageKey(false, path, NoSubst, currentCode)) == r
    {
      var key := MessageKey(false, path, NoSubst, currentCode);
      r := Cached(key);
      if r.Some? {
        return;
      }
      r := Lookup(State(), colorize, path);
      if r.Some? {
        Store(key, r.value);
      }
    }

    /** The varargs replacement loop of `getMessage(path, replacements...)`. */
    static method ApplyReplacements(message: string, replacements: seq<string>) returns (r: string)
      ensures r == ApplyPairs(message, replacements)
    {
      r := message;
      var i := 0;
      while i < |replacements|
        invariant 0 <= i <= |replacements| + 1 && i % 2 == 0
        invariant ApplyPairs(r, replacements[if i <= |replacements| then i else |replacements|..])
                  == ApplyPairs(message, replacements)
        decreases |replacements| - i
      {
        if i + 1 < |replacements| {
          assert replacements[i..][2..] == replacements[i + 2..];
          r := Replace(r, replacements[i], replacements[i + 1]);
        }
        i := i + 2;
      }
    }

    /** The replacement loop of `getMessage(path, Map)`. */
    static method ApplyEntryReplacements(message: string, entries: seq<(string, string)>) returns (r: string)
      ensures r == ApplyEntries(message, entries)
    {
      r := message;
      var i := 0;
      while i < |entries|
        invariant 0 <= i <= |entries|
        invariant ApplyEntries(r, entries[i..]) == ApplyEntries(message, entries)
      {
        assert entries[i..][1..] == entries[i + 1..];
        r := Replace(r, entries[i].0, entries[i].1);
        i := i + 1;
      }
    }

    /** `getMessage(path, replacements...)`: looks the message up first, then
        answers from the cache or applies the pairs. */
    method GetMessageWithReplacements(path: string, replacements: seq<string>) returns (r: Option<string>)
      requires Valid()
      modifies messageCache
      ensures Valid()
      ensures r == PlainAnswer(State(), colorize, path, Pairs(replacements))
      ensures r.Some? ==> Find(messageCache.entries, MessageKey(false, path, Pairs(replacements), currentCode)) == r
    {
      var message := GetMessage(path);
      if message.None? {
        return None;
      }
      var key := MessageKey(false, path, Pairs(replacements), currentCode);
      r := Cached(key);
      if r.Some? {
        return;
      }
      var replaced := ApplyReplacements(message.value, replacements);
      Store(key, replaced);
      r := Some(replaced);
    }

    /** `getMessage(path, Map)`; `order` is the map's iteration order. */
    method GetMessageWithEntries(path: string, replacements: map<string, string>, order: seq<string>)
      returns (r: Option<string>)
      requires Valid()
      requires IterationOrder(order, replacements)
      modifies messageCache
      ensures Valid()
      ensures r == PlainAnswer(State(), colorize, path, Entries(EntriesIn(replacements, order)))
      ensures r.Some? ==>
                Find(messageCache.entries, MessageKey(false, path, Entries(EntriesIn(replacements, order)), currentCode)) == r
    {
      var message := GetMessage(path);
      if message.None? {
        return None;
      }
      var entries := EntriesIn(replacements, order);
      var key := MessageKey(false, path, Entries(entries), currentCode);
      r := Cached(key);
      if r.Some? {
        return;
      }
      var replaced := ApplyEntryReplacements(message.value, entries);
      Store(key, replaced);
      r := Some(replaced);
    }

    /** The prefix text: the colorized `prefix` entry, empty when missing. */
    function PrefixText(): string
      reads this
      requires messages.Some?
    {
      PrefixOf(messages.value, colorize)
    }

    /** `getMessageWithPrefix(path)` */
    method GetMessageWithPrefix(path: string) returns (r: Option<string>)
      requires Valid()
      modifies messageCache
      ensures Valid()
      ensures r == PrefixedAnswer(State(), colorize, path, NoSubst)
      ensures r.Some? ==> Find(messageCache.entries, MessageKey(true, path, NoSubst, currentCode)) == r
    {
      var key := MessageKey(true, path, NoSubst, currentCode);
      r := Cached(key);
      if r.Some? {
        return;
      }
      if messages.None? {
        return None;
      }
      var prefix := PrefixText();
      var message := GetMessage(path);
      if message.None? {
        return None;
      }
      var result := JoinPrefix(prefix, message.value);
      Store(key, result);
      r := Some(result);
    }

    /** `getMessageWithPrefix(path, replacements...)` */
    method GetMessageWithPrefixReplacements(path: string, replacements: seq<string>) returns (r: Option<string>)
      requires Valid()
      modifies messageCache
      ensures Valid()
      ensures r == PrefixedAnswer(State(), colorize, path, Pairs(replacements))
      ensures r.Some? ==> Find(messageCache.entries, MessageKey(true, path, Pairs(replacements), currentCode)) == r
    {
      var key := MessageKey(true, path, Pairs(replacements), currentCode);
      r := Cached(key);
      if r.Some? {
        return;
      }
      if messages.None? {
        return None;
      }
      var prefix := PrefixText();
      var message := GetMessageWithReplacements(path, replacements);
      if message.None? {
        return None;
      }
      var result := JoinPrefix(prefix, message.value);
      Store(key, result);
      r := Some(result);
    }

    /** `getMessageWithPrefix(path, Map)`; `order` is the map's iteration order. */
    method GetMessageWithPrefixEntries(path: string, replacements: map<string, string>, order: seq<string>)
      returns (r: Option<string>)
      requires Valid()
      requires IterationOrder(order, replacements)
      modifies messageCache
      ensures Valid()
      ensures r == PrefixedAnswer(State(), colorize, path, Entries(EntriesIn(replacements, order)))
      ensures r.Some? ==>
                Find(messageCache.entries, MessageKey(true, path, Entries(EntriesIn(replacements, order)), currentCode)) == r
    {
      var key := MessageKey(true, path, Entries(EntriesIn(replacements, order)), currentCode);
      r := Cached(key);
      if r.Some? {
        return;
      }
      if messages.None? {
        return None;
      }
      var prefix := PrefixText();
      var message := GetMessageWithEntries(path, replacements, order);
      if message.None? {
        return None;
      }
      var result := JoinPrefix(prefix, message.value);
      Store(key, result);
      r := Some(result);
    }

    /** `getLocalizedMobName(type)` */
    method GetLocalizedMobName(typeName: string) returns (r: Option<string>)
      requires Valid()
      modifies messageCache
      ensures Valid()
      ensures r == MobName(State(), typeName)
      ensures r.Some? ==> Find(messageCache.entries, MobKey(typeName, currentCode)) == r
    {
      var key := MobKey(typeName, currentCode);
      r := Cached(key);
      if r.Some? {
        return;
      }
      r := MobName(State(), typeName);
      if r.Some? {
        Store(key, r.value);
      }
    }

    /** `getMessageType(path)`; None where the source dereferences a missing file. */
    function GetMessageType(path: string): (r: Option<MessageType>)
      reads this
      ensures r.None? <==> messages.None?
      ensures messages.Some? && path + ".type" !in messages.value ==> r == Some(CHAT)
    {
      match messages
      case None => None
      case Some(m) => Some(MessageTypeOf(m, path))
    }

    /** `formatNumber(number)`: the tier's template and the number scaled to it. */
    method FormatNumber(number: int) returns (r: Option<NumberFormat>)
      requires Valid()
      modifies messageCache
      ensures Valid()
      ensures var t := Tier(number);
              match Lookup(State(), colorize, FORMAT_NUMBER + TierKey(t))
              case None => r.None?
              case Some(template) =>
                r == Some(NumberFormat(template, (number as real) / (Divisor(t) as real)))
    {
      var t := Tier(number);
      var template := GetMessage(FORMAT_NUMBER + TierKey(t));
      if template.None? {
        return None;
      }
      r := Some(NumberFormat(template.value, (number as real) / (Divisor(t) as real)));
    }
  }
}
