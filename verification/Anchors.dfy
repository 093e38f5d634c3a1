/**
 The size compression of `Manifest.Marshal`: long strings that occur as mapping values are
 written once, with an anchor named after their hash, and every later occurrence becomes an
 alias.  The pass first marks the decoded document with strings (`key=hash`, `*hash`); the
 marks are then rewritten to YAML anchors and aliases (section 7.1 of YAML 1.2).
 */
module Anchors {
  import opened Wrappers

  /** The decoded document; a mapping keeps the order of its entries. */
  datatype Node =
    | Text(text: string)
    | Scalar(token: string)
    | List(items: seq<Node>)
    | Mapping(entries: seq<Entry>)
  datatype Entry = Entry(key: string, value: Node)

  /** `duplicateValues`: for each hash the key under which its string was first seen. */
  type Table = map<string, string>

  const LONG: nat := 64
  const DIGEST_LENGTH: nat := 40

  ghost predicate IsDigest(hash: string -> string) {
    forall s :: |hash(s)| == 40
  }

  predicate IsLong(n: Node) {
    n.Text? && |n.text| > LONG
  }

  // ---------------------------------------------------------------- marking

  function MarkNode(hash: string -> string, n: Node, seen: Table): (r: (Node, Table))
    decreases n, 1
  {
    match n
    case Text(_) => (n, seen)
    case Scalar(_) => (n, seen)
    case List(items) => var (items', seen') := MarkItems(hash, items, seen); (List(items'), seen')
    case Mapping(entries) => var (entries', seen') := MarkEntries(hash, entries, seen); (Mapping(entries'), seen')
  }

  function MarkItems(hash: string -> string, items: seq<Node>, seen: Table): (r: (seq<Node>, Table))
    decreases items, 0
  {
    if items == [] then ([], seen)
    else
      var (first, seen1) := MarkNode(hash, items[0], seen);
      var (rest, seen2) := MarkItems(hash, items[1..], seen1);
      ([first] + rest, seen2)
  }

  function MarkEntry(hash: string -> string, e: Entry, seen: Table): (r: (Entry, Table))
    decreases e, 0
  {
    if IsLong(e.value) then
      var h := hash(e.value.text);
      if h in seen then (Entry(e.key, Text("*" + h)), seen)
      else (Entry(e.key + "=" + h, e.value), seen[h := e.key])
    else
      var (value, seen') := MarkNode(hash, e.value, seen);
      (Entry(e.key, value), seen')
  }

  function MarkEntries(hash: string -> string, entries: seq<Entry>, seen: Table): (r: (seq<Entry>, Table))
    decreases entries, 0
  {
    if entries == [] then ([], seen)
    else
      var (first, seen1) := MarkEntry(hash, entries[0], seen);
      var (rest, seen2) := MarkEntries(hash, entries[1..], seen1);
      ([first] + rest, seen2)
  }

  /** The walk over the document; `duplicateValues` is filled in place while it goes on. */
  class Marker {
    var duplicateValues: Table

    constructor ()
      ensures duplicateValues == map[]
    {
      duplicateValues := map[];
    }

    method Mark(hash: string -> string, n: Node) returns (n': Node)
      modifies this
      ensures n' == MarkNode(hash, n, old(duplicateValues)).0
      ensures duplicateValues == MarkNode(hash, n, old(duplicateValues)).1
      decreases n, 1
    {
      match n
      case Text(_) => n' := n;
      case Scalar(_) => n' := n;
      case List(items) =>
        var out := MarkSlice(hash, items);
        n' := List(out);
      case Mapping(entries) =>
        var out := MarkMapSlice(hash, entries);
        n' := Mapping(out);
    }

    method MarkSlice(hash: string -> string, items: seq<Node>) returns (out: seq<Node>)
      modifies this
      ensures out == MarkItems(hash, items, old(duplicateValues)).0
      ensures duplicateValues == MarkItems(hash, items, old(duplicateValues)).1
      decreases items, 0
    {
      ghost var (all, seen) := MarkItems(hash, items, duplicateValues);
      out := [];
      assert items[0..] == items;
      for i := 0 to |items|
        invariant all == out + MarkItems(hash, items[i..], duplicateValues).0
        invariant seen == MarkItems(hash, items[i..], duplicateValues).1
      {
        assert items[i..][1..] == items[i + 1..];
        var item := Mark(hash, items[i]);
        out := out + [item];
      }
      assert items[|items|..] == [];
    }

    method MarkMapSlice(hash: string -> string, entries: seq<Entry>) returns (out: seq<Entry>)
      modifies this
      ensures out == MarkEntries(hash, entries, old(duplicateValues)).0
      ensures duplicateValues == MarkEntries(hash, entries, old(duplicateValues)).1
      decreases entries, 0
    {
      ghost var (all, seen) := MarkEntries(hash, entries, duplicateValues);
      out := [];
      assert entries[0..] == entries;
      for i := 0 to |entries|
        invariant all == out + MarkEntries(hash, entries[i..], duplicateValues).0
        invariant seen == MarkEntries(hash, entries[i..], duplicateValues).1
      {
        assert entries[i..][1..] == entries[i + 1..];
        var entry := MarkMapItem(hash, entries[i]);
        out := out + [entry];
      }
      assert entries[|entries|..] == [];
    }

    method MarkMapItem(hash: string -> string, e: Entry) returns (e': Entry)
      modifies this
      ensures e' == MarkEntry(hash, e, old(duplicateValues)).0
      ensures duplicateValues == MarkEntry(hash, e, old(duplicateValues)).1
      decreases e, 0
    {
      if e.value.Text? {
        e' := e;
        if |e.value.text| > LONG {
          var sha1 := hash(e.value.text);
          if sha1 in duplicateValues {
            e' := Entry(e.key, Text("*" + sha1));
          } else {
            e' := Entry(e.key + "=" + sha1, e.value);
            duplicateValues := duplicateValues[sha1 := e.key];
          }
        }
      } else {
        var value := Mark(hash, e.value);
        e' := Entry(e.key, value);
      }
    }
  }

  // ---------------------------------------------------------------- the document as written

  datatype YamlNode =
    | YText(text: string)
    | YScalar(token: string)
    | YAlias(anchor: string)
    | YList(items: seq<YamlNode>)
    | YMapping(entries: seq<YamlEntry>)
  datatype YamlEntry = YamlEntry(key: string, anchor: Option<string>, value: YamlNode)

  /** The replacement of the marks by anchors and aliases, for the hashes in the table. */
  predicate IsKeyMark(key: string, seen: Table) {
    && |key| > DIGEST_LENGTH
    && key[|key| - DIGEST_LENGTH - 1] == '='
    && key[|key| - DIGEST_LENGTH..] in seen
    && seen[key[|key| - DIGEST_LENGTH..]] == key[..|key| - DIGEST_LENGTH - 1]
  }

  predicate IsValueMark(text: string, seen: Table) {
    text != "" && text[0] == '*' && text[1..] in seen
  }

  function Written(n: Node, seen: Table): YamlNode
    decreases n, 1
  {
    match n
    case Text(t) => if IsValueMark(t, seen) then YAlias(t[1..]) else YText(t)
    case Scalar(t) => YScalar(t)
    case List(items) => YList(WrittenItems(items, seen))
    case Mapping(entries) => YMapping(WrittenEntries(entries, seen))
  }

  function WrittenItems(items: seq<Node>, seen: Table): seq<YamlNode>
    decreases items, 0
  {
    if items == [] then [] else [Written(items[0], seen)] + WrittenItems(items[1..], seen)
  }

  function WrittenEntry(e: Entry, seen: Table): YamlEntry
    decreases e, 0
  {
    var value := Written(e.value, seen);
    if IsKeyMark(e.key, seen) then
      YamlEntry(e.key[..|e.key| - DIGEST_LENGTH - 1], Some(e.key[|e.key| - DIGEST_LENGTH..]), value)
    else YamlEntry(e.key, None, value)
  }

  function WrittenEntries(entries: seq<Entry>, seen: Table): seq<YamlEntry>
    decreases entries, 0
  {
    if entries == [] then [] else [WrittenEntry(entries[0], seen)] + WrittenEntries(entries[1..], seen)
  }

  function Marshal(hash: string -> string, n: Node): YamlNode {
    var (marked, seen) := MarkNode(hash, n, map[]);
    Written(marked, seen)
  }

  // ---------------------------------------------------------------- reading it back

  type Anchored = map<string, Node>

  /** Composition of a YAML document in document order; an alias to an unknown anchor is an error. */
  function Compose(y: YamlNode, env: Anchored): Option<(Node, Anchored)>
    decreases y, 1
  {
    match y
    case YText(t) => Some((Text(t), env))
    case YScalar(t) => Some((Scalar(t), env))
    case YAlias(a) => if a in env then Some((env[a], env)) else None
    case YList(items) =>
      (match ComposeItems(items, env)
       case None => None
       case Some((items', env')) => Some((List(items'), env')))
    case YMapping(entries) =>
      (match ComposeEntries(entries, env)
       case None => None
       case Some((entries', env')) => Some((Mapping(entries'), env')))
  }

  function ComposeItems(items: seq<YamlNode>, env: Anchored): Option<(seq<Node>, Anchored)>
    decreases items, 0
  {
    if items == [] then Some(([], env))
    else
      match Compose(items[0], env)
      case None => None
      case Some((first, env1)) =>
        match ComposeItems(items[1..], env1)
        case None => None
        case Some((rest, env2)) => Some(([first] + rest, env2))
  }

  function ComposeEntry(e: YamlEntry, env: Anchored): Option<(Entry, Anchored)>
    decreases e, 0
  {
    match Compose(e.value, env)
    case None => None
    case Some((value, env1)) =>
      Some((Entry(e.key, value), if e.anchor.Some? then env1[e.anchor.value := value] else env1))
  }

  function ComposeEntries(entries: seq<YamlEntry>, env: Anchored): Option<(seq<Entry>, Anchored)>
    decreases entries, 0
  {
    if entries == [] then Some(([], env))
    else
      match ComposeEntry(entries[0], env)
      case None => None
      case Some((first, env1)) =>
        match ComposeEntries(entries[1..], env1)
        case None => None
        case Some((rest, env2)) => Some(([first] + rest, env2))
  }

  function Load(y: YamlNode): Option<Node> {
    match Compose(y, map[])
    case None => None
    case Some((n, _)) => Some(n)
  }

  // ---------------------------------------------------------------- what is assumed of the document

  /** The strings of more than 64 characters among the mapping values. */
  function LongValues(n: Node): set<string>
    decreases n, 1
  {
    match n
    case Text(_) => {}
    case Scalar(_) => {}
    case List(items) => LongInItems(items)
    case Mapping(entries) => LongInEntries(entries)
  }

  function LongInItems(items: seq<Node>): set<string>
    decreases items, 0
  {
    if items == [] then {} else LongValues(items[0]) + LongInItems(items[1..])
  }

  function LongInEntry(e: Entry): set<string>
    decreases e, 0
  {
    if e.value.Text? && |e.value.text| > 64 then {e.value.text} else LongValues(e.value)
  }

  function LongInEntries(entries: seq<Entry>): set<string>
    decreases entries, 0
  {
    if entries == [] then {} else LongInEntry(entries[0]) + LongInEntries(entries[1..])
  }

  function Digests(hash: string -> string, longs: set<string>): set<string> {
    set s | s in longs :: hash(s)
  }

  /** The last characters of a key, where a key mark has its hash; the character before them is an equals sign. */
  predicate LooksMarked(key: string, digests: set<string>) {
    && |key| > DIGEST_LENGTH
    && key[|key| - DIGEST_LENGTH - 1] == '='
    && key[|key| - DIGEST_LENGTH..] in digests
  }

  predicate LooksAliased(text: string, digests: set<string>) {
    text != "" && text[0] == '*' && text[1..] in digests
  }

  /** No key ends like a key mark and no text reads like a value mark for one of the digests. */
  predicate Unmarked(n: Node, digests: set<string>)
    decreases n, 1
  {
    match n
    case Text(t) => !LooksAliased(t, digests)
    case Scalar(_) => true
    case List(items) => UnmarkedItems(items, digests)
    case Mapping(entries) => UnmarkedEntries(entries, digests)
  }

  predicate UnmarkedItems(items: seq<Node>, digests: set<string>)
    decreases items, 0
  {
    items != [] ==> Unmarked(items[0], digests) && UnmarkedItems(items[1..], digests)
  }

  predicate UnmarkedEntry(e: Entry, digests: set<string>)
    decreases e, 0
  {
    !LooksMarked(e.key, digests) && Unmarked(e.value, digests)
  }

  predicate UnmarkedEntries(entries: seq<Entry>, digests: set<string>)
    decreases entries, 0
  {
    entries != [] ==> UnmarkedEntry(entries[0], digests) && UnmarkedEntries(entries[1..], digests)
  }

  ghost predicate InjectiveOn(hash: string -> string, longs: set<string>) {
    forall s, t | s in longs && t in longs && hash(s) == hash(t) :: s == t
  }

  // ---------------------------------------------------------------- compression preserves meaning

  ghost predicate Extends<V(!new)>(small: map<string, V>, big: map<string, V>) {
    forall k | k in small :: k in big && big[k] == small[k]
  }

  /** The anchors composed so far are the hashes seen so far, each bound to a long string with that hash. */
  ghost predicate Agree(hash: string -> string, seen: Table, env: Anchored, longs: set<string>) {
    && env.Keys == seen.Keys
    && forall h | h in env :: IsLong(env[h]) && hash(env[h].text) == h && env[h].text in longs
  }

  lemma {:induction false} MarkExtends(hash: string -> string, n: Node, seen: Table)
    ensures Extends(seen, MarkNode(hash, n, seen).1)
    decreases n, 1
  {
    match n
    case Text(_) =>
    case Scalar(_) =>
    case List(items) => MarkItemsExtends(hash, items, seen);
    case Mapping(entries) => MarkEntriesExtends(hash, entries, seen);
  }

  lemma {:induction false} MarkItemsExtends(hash: string -> string, items: seq<Node>, seen: Table)
    ensures Extends(seen, MarkItems(hash, items, seen).1)
    decreases items, 0
  {
    if items == [] {
    } else {
      MarkExtends(hash, items[0], seen);
      MarkItemsExtends(hash, items[1..], MarkNode(hash, items[0], seen).1);
    }
  }

  lemma {:induction false} MarkEntryExtends(hash: string -> string, e: Entry, seen: Table)
    ensures Extends(seen, MarkEntry(hash, e, seen).1)
    decreases e, 0
  {
    if IsLong(e.value) {
    } else {
      MarkExtends(hash, e.value, seen);
    }
  }

  lemma {:induction false} MarkEntriesExtends(hash: string -> string, entries: seq<Entry>, seen: Table)
    ensures Extends(seen, MarkEntries(hash, entries, seen).1)
    decreases entries, 0
  {
    if entries == [] {
    } else {
      MarkEntryExtends(hash, entries[0], seen);
      MarkEntriesExtends(hash, entries[1..], MarkEntry(hash, entries[0], seen).1);
    }
  }

  /** A key mark is read back as the key and the hash it was made of. */
  lemma KeyMarks(key: string, h: string, all: Table)
    requires |h| == DIGEST_LENGTH && h in all && all[h] == key
    ensures var k := key + "=" + h;
            IsKeyMark(k, all) && k[..|k| - DIGEST_LENGTH - 1] == key && k[|k| - DIGEST_LENGTH..] == h
  {
    var k := key + "=" + h;
    assert k[|k| - DIGEST_LENGTH..] == h;
    assert k[..|k| - DIGEST_LENGTH - 1] == key;
  }

  lemma ComposeItemsCons(y: YamlNode, ys: seq<YamlNode>, env: Anchored)
    requires Compose(y, env).Some? && ComposeItems(ys, Compose(y, env).value.1).Some?
    ensures var c1 := Compose(y, env).value;
            var c2 := ComposeItems(ys, c1.1).value;
            ComposeItems([y] + ys, env) == Some(([c1.0] + c2.0, c2.1))
  {
    assert ([y] + ys)[1..] == ys;
  }

  lemma ComposeEntriesCons(y: YamlEntry, ys: seq<YamlEntry>, env: Anchored)
    requires ComposeEntry(y, env).Some? && ComposeEntries(ys, ComposeEntry(y, env).value.1).Some?
    ensures var c1 := ComposeEntry(y, env).value;
            var c2 := ComposeEntries(ys, c1.1).value;
            ComposeEntries([y] + ys, env) == Some(([c1.0] + c2.0, c2.1))
  {
    assert ([y] + ys)[1..] == ys;
  }

  lemma ItemsCons(first: Node, rest: seq<Node>, all: Table)
    ensures WrittenItems([first] + rest, all) == [Written(first, all)] + WrittenItems(rest, all)
    ensures LongInItems([first] + rest) == LongValues(first) + LongInItems(rest)
  {
    assert ([first] + rest)[1..] == rest;
  }

  lemma EntriesCons(first: Entry, rest: seq<Entry>, all: Table)
    ensures WrittenEntries([first] + rest, all) == [WrittenEntry(first, all)] + WrittenEntries(rest, all)
    ensures LongInEntries([first] + rest) == LongInEntry(first) + LongInEntries(rest)
  {
    assert ([first] + rest)[1..] == rest;
  }

  /** What composing a marked part leaves behind, where `found` are the long values it produced. */
  ghost predicate Composed(hash: string -> string, seen: Table, longs: set<string>, env: Anchored,
                           found: set<string>, env': Anchored)
  {
    && Agree(hash, seen, env', longs)
    && Extends(env, env')
    && forall s | s in found :: hash(s) in env' && env'[hash(s)] == Text(s)
  }

  lemma ComposedInTurn(hash: string -> string, seen1: Table, seen2: Table, longs: set<string>, env: Anchored,
                       found1: set<string>, env1: Anchored, found2: set<string>, env2: Anchored)
    requires Composed(hash, seen1, longs, env, found1, env1)
    requires Composed(hash, seen2, longs, env1, found2, env2)
    ensures Composed(hash, seen2, longs, env, found1 + found2, env2)
  {
  }

  /**
   Composing a marked and written part always succeeds, binds each anchor to the one long
   value it stands for, and gives back the original wherever the hash is injective.
   */
  lemma {:induction false} ComposeMarked(
    hash: string -> string, n: Node, seen: Table, all: Table, longs: set<string>, env: Anchored)
    requires IsDigest(hash) && all.Keys <= Digests(hash, longs) && Extends(MarkNode(hash, n, seen).1, all)
    requires Unmarked(n, Digests(hash, longs)) && LongValues(n) <= longs && Agree(hash, seen, env, longs)
    ensures var (marked, seen') := MarkNode(hash, n, seen);
            var c := Compose(Written(marked, all), env);
            && c.Some?
            && Composed(hash, seen', longs, env, LongValues(c.value.0), c.value.1)
            && (n.Text? ==> c.value.0 == n)
            && (!n.Text? ==> !c.value.0.Text?)
            && (InjectiveOn(hash, longs) ==> c.value.0 == n)
    decreases n, 1
  {
    match n
    case Text(t) =>
      assert !IsValueMark(t, all);
      assert Compose(Written(n, all), env) == Some((n, env));
    case Scalar(_) =>
    case List(items) =>
      ComposeMarkedItems(hash, items, seen, all, longs, env);
      var c := ComposeItems(WrittenItems(MarkItems(hash, items, seen).0, all), env).value;
      assert Compose(Written(MarkNode(hash, n, seen).0, all), env) == Some((List(c.0), c.1));
    case Mapping(entries) =>
      ComposeMarkedEntries(hash, entries, seen, all, longs, env);
      var c := ComposeEntries(WrittenEntries(MarkEntries(hash, entries, seen).0, all), env).value;
      assert Compose(Written(MarkNode(hash, n, seen).0, all), env) == Some((Mapping(c.0), c.1));
  }

  lemma {:induction false} ComposeMarkedItems(
    hash: string -> string, items: seq<Node>, seen: Table, all: Table, longs: set<string>, env: Anchored)
    requires IsDigest(hash) && all.Keys <= Digests(hash, longs) && Extends(MarkItems(hash, items, seen).1, all)
    requires UnmarkedItems(items, Digests(hash, longs)) && LongInItems(items) <= longs && Agree(hash, seen, env, longs)
    ensures var (marked, seen') := MarkItems(hash, items, seen);
            var c := ComposeItems(WrittenItems(marked, all), env);
            && c.Some?
            && Composed(hash, seen', longs, env, LongInItems(c.value.0), c.value.1)
            && (InjectiveOn(hash, longs) ==> c.value.0 == items)
    decreases items, 0
  {
    if items == [] {
    } else {
      var (first, seen1) := MarkNode(hash, items[0], seen);
      var (rest, seen2) := MarkItems(hash, items[1..], seen1);
      MarkItemsExtends(hash, items[1..], seen1);
      ComposeMarked(hash, items[0], seen, all, longs, env);
      var c1 := Compose(Written(first, all), env).value;
      ComposeMarkedItems(hash, items[1..], seen1, all, longs, c1.1);
      var c2 := ComposeItems(WrittenItems(rest, all), c1.1).value;
      ItemsCons(first, rest, all);
      ItemsCons(c1.0, c2.0, all);
      ComposeItemsCons(Written(first, all), WrittenItems(rest, all), env);
      ComposedInTurn(hash, seen1, seen2, longs, env, LongValues(c1.0), c1.1, LongInItems(c2.0), c2.1);
      assert items == [items[0]] + items[1..];
    }
  }

  /** A long value met again is written as an alias to its anchor. */
  lemma WriteAgain(hash: string -> string, e: Entry, seen: Table, all: Table, digests: set<string>)
    requires IsLong(e.value) && hash(e.value.text) in seen
    requires hash(e.value.text) in all && all.Keys <= digests && !LooksMarked(e.key, digests)
    ensures WrittenEntry(MarkEntry(hash, e, seen).0, all) == YamlEntry(e.key, None, YAlias(hash(e.value.text)))
  {
    var h := hash(e.value.text);
    assert ("*" + h)[1..] == h;
  }

  /** A long value met for the first time is written out, under an anchor. */
  lemma WriteFirst(hash: string -> string, e: Entry, seen: Table, all: Table, digests: set<string>)
    requires IsDigest(hash) && IsLong(e.value) && hash(e.value.text) !in seen
    requires hash(e.value.text) in all && all[hash(e.value.text)] == e.key
    requires all.Keys <= digests && !LooksAliased(e.value.text, digests)
    ensures WrittenEntry(MarkEntry(hash, e, seen).0, all) ==
            YamlEntry(e.key, Some(hash(e.value.text)), YText(e.value.text))
  {
    KeyMarks(e.key, hash(e.value.text), all);
  }

  lemma ComposeAgain(hash: string -> string, e: Entry, seen: Table, longs: set<string>, env: Anchored)
    requires IsLong(e.value) && e.value.text in longs && hash(e.value.text) in seen && Agree(hash, seen, env, longs)
    ensures var c := ComposeEntry(YamlEntry(e.key, None, YAlias(hash(e.value.text))), env);
            && c.Some?
            && Composed(hash, seen, longs, env, LongInEntry(c.value.0), c.value.1)
            && (InjectiveOn(hash, longs) ==> c.value.0 == e)
  {
  }

  lemma ComposeFirst(hash: string -> string, e: Entry, seen: Table, longs: set<string>, env: Anchored)
    requires IsLong(e.value) && e.value.text in longs && hash(e.value.text) !in seen && Agree(hash, seen, env, longs)
    ensures var h := hash(e.value.text);
            var c := ComposeEntry(YamlEntry(e.key, Some(h), YText(e.value.text)), env);
            && c.Some?
            && Composed(hash, seen[h := e.key], longs, env, LongInEntry(c.value.0), c.value.1)
            && c.value.0 == e
  {
  }

  lemma ComposeLongEntry(
    hash: string -> string, e: Entry, seen: Table, all: Table, longs: set<string>, env: Anchored)
    requires IsDigest(hash) && all.Keys <= Digests(hash, longs) && Extends(MarkEntry(hash, e, seen).1, all)
    requires UnmarkedEntry(e, Digests(hash, longs)) && IsLong(e.value) && e.value.text in longs
    requires Agree(hash, seen, env, longs)
    ensures var (marked, seen') := MarkEntry(hash, e, seen);
            var c := ComposeEntry(WrittenEntry(marked, all), env);
            && c.Some?
            && Composed(hash, seen', longs, env, LongInEntry(c.value.0), c.value.1)
            && (InjectiveOn(hash, longs) ==> c.value.0 == e)
  {
    if hash(e.value.text) in seen {
      WriteAgain(hash, e, seen, all, Digests(hash, longs));
      ComposeAgain(hash, e, seen, longs, env);
    } else {
      WriteFirst(hash, e, seen, all, Digests(hash, longs));
      ComposeFirst(hash, e, seen, longs, env);
    }
  }

  lemma {:induction false} ComposeMarkedEntry(
    hash: string -> string, e: Entry, seen: Table, all: Table, longs: set<string>, env: Anchored)
    requires IsDigest(hash) && all.Keys <= Digests(hash, longs) && Extends(MarkEntry(hash, e, seen).1, all)
    requires UnmarkedEntry(e, Digests(hash, longs)) && LongInEntry(e) <= longs && Agree(hash, seen, env, longs)
    ensures var (marked, seen') := MarkEntry(hash, e, seen);
            var c := ComposeEntry(WrittenEntry(marked, all), env);
            && c.Some?
            && Composed(hash, seen', longs, env, LongInEntry(c.value.0), c.value.1)
            && (InjectiveOn(hash, longs) ==> c.value.0 == e)
    decreases e, 0
  {
    if IsLong(e.value) {
      ComposeLongEntry(hash, e, seen, all, longs, env);
    } else {
      ComposeMarked(hash, e.value, seen, all, longs, env);
    }
  }

  lemma {:induction false} ComposeMarkedEntries(
    hash: string -> string, entries: seq<Entry>, seen: Table, all: Table, longs: set<string>, env: Anchored)
    requires IsDigest(hash) && all.Keys <= Digests(hash, longs) && Extends(MarkEntries(hash, entries, seen).1, all)
    requires UnmarkedEntries(entries, Digests(hash, longs)) && LongInEntries(entries) <= longs
    requires Agree(hash, seen, env, longs)
    ensures var (marked, seen') := MarkEntries(hash, entries, seen);
            var c := ComposeEntries(WrittenEntries(marked, all), env);
            && c.Some?
            && Composed(hash, seen', longs, env, LongInEntries(c.value.0), c.value.1)
            && (InjectiveOn(hash, longs) ==> c.value.0 == entries)
    decreases entries, 0
  {
    if entries == [] {
    } else {
      var (first, seen1) := MarkEntry(hash, entries[0], seen);
      var (rest, seen2) := MarkEntries(hash, entries[1..], seen1);
      MarkEntriesExtends(hash, entries[1..], seen1);
      ComposeMarkedEntry(hash, entries[0], seen, all, longs, env);
      var c1 := ComposeEntry(WrittenEntry(first, all), env).value;
      ComposeMarkedEntries(hash, entries[1..], seen1, all, longs, c1.1);
      var c2 := ComposeEntries(WrittenEntries(rest, all), c1.1).value;
      EntriesCons(first, rest, all);
      EntriesCons(c1.0, c2.0, all);
      ComposeEntriesCons(WrittenEntry(first, all), WrittenEntries(rest, all), env);
      ComposedInTurn(hash, seen1, seen2, longs, env, LongInEntry(c1.0), c1.1, LongInEntries(c2.0), c2.1);
      assert entries == [entries[0]] + entries[1..];
    }
  }

  // ---------------------------------------------------------------- the table of the whole document

  lemma {:induction false} TableHoldsDigests(hash: string -> string, n: Node, seen: Table)
    ensures MarkNode(hash, n, seen).1.Keys == seen.Keys + Digests(hash, LongValues(n))
    decreases n, 1
  {
    match n
    case Text(_) =>
    case Scalar(_) =>
    case List(items) => ItemsTableHoldsDigests(hash, items, seen);
    case Mapping(entries) => EntriesTableHoldsDigests(hash, entries, seen);
  }

  lemma DigestsOfUnion(hash: string -> string, a: set<string>, b: set<string>)
    ensures Digests(hash, a + b) == Digests(hash, a) + Digests(hash, b)
  {
  }

  lemma {:induction false} ItemsTableHoldsDigests(hash: string -> string, items: seq<Node>, seen: Table)
    ensures MarkItems(hash, items, seen).1.Keys == seen.Keys + Digests(hash, LongInItems(items))
    decreases items, 0
  {
    if items == [] {
    } else {
      TableHoldsDigests(hash, items[0], seen);
      ItemsTableHoldsDigests(hash, items[1..], MarkNode(hash, items[0], seen).1);
      DigestsOfUnion(hash, LongValues(items[0]), LongInItems(items[1..]));
    }
  }

  lemma {:induction false} EntryTableHoldsDigests(hash: string -> string, e: Entry, seen: Table)
    ensures MarkEntry(hash, e, seen).1.Keys == seen.Keys + Digests(hash, LongInEntry(e))
    decreases e, 0
  {
    if IsLong(e.value) {
      assert Digests(hash, {e.value.text}) == {hash(e.value.text)};
    } else {
      TableHoldsDigests(hash, e.value, seen);
    }
  }

  lemma {:induction false} EntriesTableHoldsDigests(hash: string -> string, entries: seq<Entry>, seen: Table)
    ensures MarkEntries(hash, entries, seen).1.Keys == seen.Keys + Digests(hash, LongInEntries(entries))
    decreases entries, 0
  {
    if entries == [] {
    } else {
      EntryTableHoldsDigests(hash, entries[0], seen);
      EntriesTableHoldsDigests(hash, entries[1..], MarkEntry(hash, entries[0], seen).1);
      DigestsOfUnion(hash, LongInEntry(entries[0]), LongInEntries(entries[1..]));
    }
  }

  /**
   Compression preserves meaning, with its exact condition: a written document always loads,
   and it loads as the original if and only if the hash tells the long values apart.
   */
  lemma LoadsBackIff(hash: string -> string, n: Node)
    requires IsDigest(hash) && Unmarked(n, Digests(hash, LongValues(n)))
    ensures Load(Marshal(hash, n)).Some?
    ensures Load(Marshal(hash, n)) == Some(n) <==> InjectiveOn(hash, LongValues(n))
  {
    var longs := LongValues(n);
    var (marked, all) := MarkNode(hash, n, map[]);
    TableHoldsDigests(hash, n, map[]);
    ComposeMarked(hash, n, map[], all, longs, map[]);
  }

  // ---------------------------------------------------------------- documents without the characters of the marks

  /** No text starts with an asterisk and no key has an equals sign. */
  predicate Clean(n: Node)
    decreases n, 1
  {
    match n
    case Text(t) => t == "" || t[0] != '*'
    case Scalar(_) => true
    case List(items) => CleanItems(items)
    case Mapping(entries) => CleanEntries(entries)
  }

  predicate CleanItems(items: seq<Node>)
    decreases items, 0
  {
    items != [] ==> Clean(items[0]) && CleanItems(items[1..])
  }

  predicate CleanEntries(entries: seq<Entry>)
    decreases entries, 0
  {
    entries != [] ==> '=' !in entries[0].key && Clean(entries[0].value) && CleanEntries(entries[1..])
  }

  lemma {:induction false} CleanIsUnmarked(n: Node, digests: set<string>)
    requires Clean(n)
    ensures Unmarked(n, digests)
    decreases n, 1
  {
    match n
    case Text(_) =>
    case Scalar(_) =>
    case List(items) => CleanItemsAreUnmarked(items, digests);
    case Mapping(entries) => CleanEntriesAreUnmarked(entries, digests);
  }

  lemma {:induction false} CleanItemsAreUnmarked(items: seq<Node>, digests: set<string>)
    requires CleanItems(items)
    ensures UnmarkedItems(items, digests)
    decreases items, 0
  {
    if items == [] {
    } else {
      CleanIsUnmarked(items[0], digests);
      CleanItemsAreUnmarked(items[1..], digests);
    }
  }

  lemma {:induction false} CleanEntriesAreUnmarked(entries: seq<Entry>, digests: set<string>)
    requires CleanEntries(entries)
    ensures UnmarkedEntries(entries, digests)
    decreases entries, 0
  {
    if entries == [] {
    } else {
      CleanIsUnmarked(entries[0].value, digests);
      CleanEntriesAreUnmarked(entries[1..], digests);
    }
  }

  /** A document that uses neither character loads back, whatever its texts are, unless two long ones collide. */
  lemma CleanLoadsBackIff(hash: string -> string, n: Node)
    requires IsDigest(hash) && Clean(n)
    ensures Load(Marshal(hash, n)).Some?
    ensures Load(Marshal(hash, n)) == Some(n) <==> InjectiveOn(hash, LongValues(n))
  {
    CleanIsUnmarked(n, Digests(hash, LongValues(n)));
    LoadsBackIff(hash, n);
  }

  // ---------------------------------------------------------------- anchors in document order

  /** What a reader of the document meets: an anchored text, an alias, or a long value without an anchor. */
  datatype Event = Define(anchor: string, text: string) | Use(anchor: string) | Bare(text: string)

  function Events(y: YamlNode): seq<Event>
    decreases y, 1
  {
    match y
    case YText(_) => []
    case YScalar(_) => []
    case YAlias(a) => [Use(a)]
    case YList(items) => ItemEvents(items)
    case YMapping(entries) => EntriesEvents(entries)
  }

  function ItemEvents(items: seq<YamlNode>): seq<Event>
    decreases items, 0
  {
    if items == [] then [] else Events(items[0]) + ItemEvents(items[1..])
  }

  function EntryEvents(e: YamlEntry): seq<Event>
    decreases e, 0
  {
    match e.anchor
    case Some(a) => (if e.value.YText? then [Define(a, e.value.text)] else [Define(a, "")]) + Events(e.value)
    case None => if e.value.YText? && |e.value.text| > 64 then [Bare(e.value.text)] else Events(e.value)
  }

  function EntriesEvents(entries: seq<YamlEntry>): seq<Event>
    decreases entries, 0
  {
    if entries == [] then [] else EntryEvents(entries[0]) + EntriesEvents(entries[1..])
  }

  function Known(events: seq<Event>, known: set<string>): set<string> {
    if events == [] then known
    else Known(events[1..], if events[0].Define? then known + {events[0].anchor} else known)
  }

  /** Anchors are new when they are defined, and known when they are used; each names the hash of a long text. */
  ghost predicate WellOrdered(hash: string -> string, events: seq<Event>, known: set<string>) {
    events != [] ==>
      match events[0]
      case Define(a, t) => a == hash(t) && |t| > 64 && a !in known && WellOrdered(hash, events[1..], known + {a})
      case Use(a) => a in known && WellOrdered(hash, events[1..], known)
      case Bare(_) => false
  }

  lemma {:induction false} OrderedInTurn(hash: string -> string, a: seq<Event>, b: seq<Event>, known: set<string>)
    requires WellOrdered(hash, a, known) && WellOrdered(hash, b, Known(a, known))
    ensures WellOrdered(hash, a + b, known)
    ensures Known(a + b, known) == Known(b, Known(a, known))
    decreases |a|
  {
    if a == [] {
      assert a + b == b;
    } else {
      assert (a + b)[1..] == a[1..] + b;
      OrderedInTurn(hash, a[1..], b, if a[0].Define? then known + {a[0].anchor} else known);
    }
  }

  lemma {:induction false} MarkedIsOrdered(
    hash: string -> string, n: Node, seen: Table, all: Table, digests: set<string>)
    requires IsDigest(hash) && all.Keys <= digests && Extends(MarkNode(hash, n, seen).1, all)
    requires Unmarked(n, digests)
    ensures var (marked, seen') := MarkNode(hash, n, seen);
            var events := Events(Written(marked, all));
            WellOrdered(hash, events, seen.Keys) && Known(events, seen.Keys) == seen'.Keys
    decreases n, 1
  {
    match n
    case Text(t) => assert Events(Written(n, all)) == [];
    case Scalar(_) =>
    case List(items) => MarkedItemsAreOrdered(hash, items, seen, all, digests);
    case Mapping(entries) => MarkedEntriesAreOrdered(hash, entries, seen, all, digests);
  }

  lemma {:induction false} MarkedItemsAreOrdered(
    hash: string -> string, items: seq<Node>, seen: Table, all: Table, digests: set<string>)
    requires IsDigest(hash) && all.Keys <= digests && Extends(MarkItems(hash, items, seen).1, all)
    requires UnmarkedItems(items, digests)
    ensures var (marked, seen') := MarkItems(hash, items, seen);
            var events := ItemEvents(WrittenItems(marked, all));
            WellOrdered(hash, events, seen.Keys) && Known(events, seen.Keys) == seen'.Keys
    decreases items, 0
  {
    if items == [] {
    } else {
      var (first, seen1) := MarkNode(hash, items[0], seen);
      var (rest, seen2) := MarkItems(hash, items[1..], seen1);
      MarkItemsExtends(hash, items[1..], seen1);
      MarkedIsOrdered(hash, items[0], seen, all, digests);
      MarkedItemsAreOrdered(hash, items[1..], seen1, all, digests);
      ItemsCons(first, rest, all);
      var w, ws := Written(first, all), WrittenItems(rest, all);
      assert ([w] + ws)[1..] == ws;
      OrderedInTurn(hash, Events(w), ItemEvents(ws), seen.Keys);
    }
  }

  lemma {:induction false} MarkedEntryIsOrdered(
    hash: string -> string, e: Entry, seen: Table, all: Table, digests: set<string>)
    requires IsDigest(hash) && all.Keys <= digests && Extends(MarkEntry(hash, e, seen).1, all)
    requires UnmarkedEntry(e, digests)
    ensures var (marked, seen') := MarkEntry(hash, e, seen);
            var events := EntryEvents(WrittenEntry(marked, all));
            WellOrdered(hash, events, seen.Keys) && Known(events, seen.Keys) == seen'.Keys
    decreases e, 0
  {
    if !IsLong(e.value) {
      MarkedIsOrdered(hash, e.value, seen, all, digests);
    } else {
      var h := hash(e.value.text);
      if h in seen {
        WriteAgain(hash, e, seen, all, digests);
        assert EntryEvents(YamlEntry(e.key, None, YAlias(h))) == [Use(h)];
      } else {
        WriteFirst(hash, e, seen, all, digests);
        assert EntryEvents(YamlEntry(e.key, Some(h), YText(e.value.text))) == [Define(h, e.value.text)];
      }
    }
  }

  lemma {:induction false} MarkedEntriesAreOrdered(
    hash: string -> string, entries: seq<Entry>, seen: Table, all: Table, digests: set<string>)
    requires IsDigest(hash) && all.Keys <= digests && Extends(MarkEntries(hash, entries, seen).1, all)
    requires UnmarkedEntries(entries, digests)
    ensures var (marked, seen') := MarkEntries(hash, entries, seen);
            var events := EntriesEvents(WrittenEntries(marked, all));
            WellOrdered(hash, events, seen.Keys) && Known(events, seen.Keys) == seen'.Keys
    decreases entries, 0
  {
    if entries == [] {
    } else {
      var (first, seen1) := MarkEntry(hash, entries[0], seen);
      var (rest, seen2) := MarkEntries(hash, entries[1..], seen1);
      MarkEntriesExtends(hash, entries[1..], seen1);
      MarkedEntryIsOrdered(hash, entries[0], seen, all, digests);
      MarkedEntriesAreOrdered(hash, entries[1..], seen1, all, digests);
      EntriesCons(first, rest, all);
      var w, ws := WrittenEntry(first, all), WrittenEntries(rest, all);
      assert ([w] + ws)[1..] == ws;
      OrderedInTurn(hash, EntryEvents(w), EntriesEvents(ws), seen.Keys);
    }
  }

  lemma {:induction false} OrderedMeans(hash: string -> string, events: seq<Event>, known: set<string>, i: nat)
    requires WellOrdered(hash, events, known) && i < |events|
    ensures !events[i].Bare?
    ensures events[i].Define? ==>
              events[i].anchor == hash(events[i].text) && |events[i].text| > 64 && events[i].anchor !in known
    ensures events[i].Define? ==>
              forall j | 0 <= j < i :: events[j].Define? ==> events[j].anchor != events[i].anchor
    ensures events[i].Use? ==>
              (events[i].anchor in known ||
               exists j | 0 <= j < i :: events[j].Define? && events[j].anchor == events[i].anchor)
    decreases |events|
  {
    if i == 0 {
    } else {
      var known' := if events[0].Define? then known + {events[0].anchor} else known;
      OrderedMeans(hash, events[1..], known', i - 1);
      assert events[i] == events[1..][i - 1];
      if events[i].Define? {
        forall j | 0 <= j < i && events[j].Define? ensures events[j].anchor != events[i].anchor {
          if j > 0 {
            assert events[j] == events[1..][j - 1];
          }
        }
      }
      if events[i].Use? && events[i].anchor !in known {
        if events[i].anchor in known' {
          assert events[0].Define? && events[0].anchor == events[i].anchor;
        } else {
          var j :| 0 <= j < i - 1 && events[1..][j].Define? && events[1..][j].anchor == events[1..][i - 1].anchor;
          assert events[j + 1] == events[1..][j];
        }
      }
    }
  }

  /**
   In the written document every mapping value of more than 64 characters is anchored under
   its hash, and no other value is; no anchor and hence no long text is written out twice, and
   every alias comes after the anchor of its text.
   */
  lemma AnchoredOnceBeforeUse(hash: string -> string, n: Node, i: nat)
    requires IsDigest(hash) && Unmarked(n, Digests(hash, LongValues(n)))
    requires i < |Events(Marshal(hash, n))|
    ensures var events := Events(Marshal(hash, n));
            && !events[i].Bare?
            && (events[i].Define? ==> |events[i].text| > 64)
            && (events[i].Define? ==> forall j | 0 <= j < i && events[j].Define? ::
                  events[j].anchor != events[i].anchor && events[j].text != events[i].text)
            && (events[i].Use? ==> exists j | 0 <= j < i ::
                  events[j].Define? && events[j].anchor == events[i].anchor && |events[j].text| > 64)
  {
    var none: Table := map[];
    assert none.Keys == {};
    TableHoldsDigests(hash, n, none);
    MarkedIsOrdered(hash, n, none, MarkNode(hash, n, none).1, Digests(hash, LongValues(n)));
    var events := Events(Marshal(hash, n));
    OrderedMeans(hash, events, {}, i);
    forall j | 0 <= j < i && events[j].Define?
      ensures events[j].anchor == hash(events[j].text) && |events[j].text| > 64
    {
      OrderedMeans(hash, events, {}, j);
    }
  }

  // ---------------------------------------------------------------- what is left alone

  /** The document as it is written without any compression. */
  function Plain(n: Node): YamlNode
    decreases n, 1
  {
    match n
    case Text(t) => YText(t)
    case Scalar(t) => YScalar(t)
    case List(items) => YList(PlainItems(items))
    case Mapping(entries) => YMapping(PlainEntries(entries))
  }

  function PlainItems(items: seq<Node>): seq<YamlNode>
    decreases items, 0
  {
    if items == [] then [] else [Plain(items[0])] + PlainItems(items[1..])
  }

  function PlainEntries(entries: seq<Entry>): seq<YamlEntry>
    decreases entries, 0
  {
    if entries == [] then []
    else [YamlEntry(entries[0].key, None, Plain(entries[0].value))] + PlainEntries(entries[1..])
  }

  lemma {:induction false} ShortIsNotMarked(hash: string -> string, n: Node, seen: Table)
    requires LongValues(n) == {}
    ensures MarkNode(hash, n, seen) == (n, seen)
    decreases n, 1
  {
    match n
    case Text(_) =>
    case Scalar(_) =>
    case List(items) => ShortItemsAreNotMarked(hash, items, seen);
    case Mapping(entries) => ShortEntriesAreNotMarked(hash, entries, seen);
  }

  lemma {:induction false} ShortItemsAreNotMarked(hash: string -> string, items: seq<Node>, seen: Table)
    requires LongInItems(items) == {}
    ensures MarkItems(hash, items, seen) == (items, seen)
    decreases items, 0
  {
    if items == [] {
    } else {
      assert LongValues(items[0]) <= LongInItems(items) && LongInItems(items[1..]) <= LongInItems(items);
      ShortIsNotMarked(hash, items[0], seen);
      ShortItemsAreNotMarked(hash, items[1..], seen);
      assert [items[0]] + items[1..] == items;
    }
  }

  lemma {:induction false} ShortEntryIsNotMarked(hash: string -> string, e: Entry, seen: Table)
    requires LongInEntry(e) == {}
    ensures MarkEntry(hash, e, seen) == (e, seen)
    decreases e, 0
  {
    assert LongValues(e.value) == {};
    ShortIsNotMarked(hash, e.value, seen);
  }

  lemma {:induction false} ShortEntriesAreNotMarked(hash: string -> string, entries: seq<Entry>, seen: Table)
    requires LongInEntries(entries) == {}
    ensures MarkEntries(hash, entries, seen) == (entries, seen)
    decreases entries, 0
  {
    if entries == [] {
    } else {
      assert LongInEntry(entries[0]) <= LongInEntries(entries) && LongInEntries(entries[1..]) <= LongInEntries(entries);
      ShortEntryIsNotMarked(hash, entries[0], seen);
      ShortEntriesAreNotMarked(hash, entries[1..], seen);
      assert [entries[0]] + entries[1..] == entries;
    }
  }

  lemma {:induction false} UnmarkedIsPlain(n: Node)
    ensures Written(n, map[]) == Plain(n)
    decreases n, 1
  {
    match n
    case Text(_) =>
    case Scalar(_) =>
    case List(items) => UnmarkedItemsArePlain(items);
    case Mapping(entries) => UnmarkedEntriesArePlain(entries);
  }

  lemma {:induction false} UnmarkedItemsArePlain(items: seq<Node>)
    ensures WrittenItems(items, map[]) == PlainItems(items)
    decreases items, 0
  {
    if items == [] {
    } else {
      UnmarkedIsPlain(items[0]);
      UnmarkedItemsArePlain(items[1..]);
    }
  }

  lemma {:induction false} UnmarkedEntriesArePlain(entries: seq<Entry>)
    ensures WrittenEntries(entries, map[]) == PlainEntries(entries)
    decreases entries, 0
  {
    if entries == [] {
    } else {
      UnmarkedIsPlain(entries[0].value);
      UnmarkedEntriesArePlain(entries[1..]);
    }
  }

  lemma {:induction false} LoadsPlain(n: Node, env: Anchored)
    ensures Compose(Plain(n), env) == Some((n, env))
    decreases n, 1
  {
    match n
    case Text(_) =>
    case Scalar(_) =>
    case List(items) => LoadsPlainItems(items, env);
    case Mapping(entries) => LoadsPlainEntries(entries, env);
  }

  lemma {:induction false} LoadsPlainItems(items: seq<Node>, env: Anchored)
    ensures ComposeItems(PlainItems(items), env) == Some((items, env))
    decreases items, 0
  {
    if items == [] {
    } else {
      LoadsPlain(items[0], env);
      LoadsPlainItems(items[1..], env);
      ComposeItemsCons(Plain(items[0]), PlainItems(items[1..]), env);
      assert [items[0]] + items[1..] == items;
    }
  }

  lemma {:induction false} LoadsPlainEntries(entries: seq<Entry>, env: Anchored)
    ensures ComposeEntries(PlainEntries(entries), env) == Some((entries, env))
    decreases entries, 0
  {
    if entries == [] {
    } else {
      LoadsPlain(entries[0].value, env);
      LoadsPlainEntries(entries[1..], env);
      ComposeEntriesCons(YamlEntry(entries[0].key, None, Plain(entries[0].value)), PlainEntries(entries[1..]), env);
      assert [entries[0]] + entries[1..] == entries;
    }
  }

  /** Without compression the only events are the long values that are written out. */
  lemma {:induction false} PlainEvents(n: Node, i: nat)
    requires i < |Events(Plain(n))|
    ensures Events(Plain(n))[i].Bare? && Events(Plain(n))[i].text in LongValues(n)
    decreases n, 1
  {
    match n
    case List(items) => PlainItemEvents(items, i);
    case Mapping(entries) => PlainEntryEvents(entries, i);
  }

  lemma {:induction false} PlainItemEvents(items: seq<Node>, i: nat)
    requires i < |ItemEvents(PlainItems(items))|
    ensures var e := ItemEvents(PlainItems(items))[i]; e.Bare? && e.text in LongInItems(items)
    decreases items, 0
  {
    var ys := PlainItems(items);
    assert ys[0] == Plain(items[0]) && ys[1..] == PlainItems(items[1..]);
    var first := Events(Plain(items[0]));
    if i < |first| {
      PlainEvents(items[0], i);
    } else {
      PlainItemEvents(items[1..], i - |first|);
    }
  }

  lemma {:induction false} PlainEntryEvents(entries: seq<Entry>, i: nat)
    requires i < |EntriesEvents(PlainEntries(entries))|
    ensures var e := EntriesEvents(PlainEntries(entries))[i]; e.Bare? && e.text in LongInEntries(entries)
    decreases entries, 0
  {
    var ys, value := PlainEntries(entries), entries[0].value;
    assert ys[0] == YamlEntry(entries[0].key, None, Plain(value)) && ys[1..] == PlainEntries(entries[1..]);
    var first := EntryEvents(ys[0]);
    if i < |first| {
      if !(value.Text? && |value.text| > 64) {
        PlainEvents(value, i);
      }
    } else {
      PlainEntryEvents(entries[1..], i - |first|);
    }
  }

  /**
   A document without mapping values of more than 64 characters is written as it is, whatever
   the hash: no anchor, no alias, no key mark.
   */
  lemma ShortDocumentIsUntouched(hash: string -> string, n: Node)
    requires LongValues(n) == {}
    ensures Marshal(hash, n) == Plain(n) && Events(Marshal(hash, n)) == [] && Load(Marshal(hash, n)) == Some(n)
  {
    if |Events(Plain(n))| > 0 {
      PlainEvents(n, 0);
    }
    ShortIsNotMarked(hash, n, map[]);
    UnmarkedIsPlain(n);
    LoadsPlain(n, map[]);
  }
}
