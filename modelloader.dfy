/**
 * Reading a Live2D model's settings and listing its expressions and motions.
 * Reading and parsing a settings file is the parameter `load`: for a path
 * relative to the models directory it gives `None` when the read or the parse
 * throws, and otherwise the parsed value. A JavaScript `Map` is an association
 * list in insertion order.
 */
module ModelLoader {
  import opened Wrappers

  /** An expression entry: `{name, file}` in v2 files, `{Name, File}` in v3 files. */
  datatype ExpressionEntry = ExpressionEntry(name: string, file: string)

  /** A motion entry: `{file}` in v2 files, `{File}` in v3 files (fades are not read). */
  datatype MotionEntry = MotionEntry(file: string)

  /** Motion groups in `Object.entries` order. */
  type MotionGroups = seq<(string, seq<MotionEntry>)>

  /** A key of a parsed object: missing, holding `null`, or holding a value. */
  datatype Field<+T> = Absent | Null | Present(value: T)

  /** A v3 file's `FileReferences`, as far as expressions and motions go. */
  datatype FileReferences = FileReferences(expressions: Field<seq<ExpressionEntry>>, motions: Field<MotionGroups>)

  /**
   * A parsed settings object, by what it holds under the keys `expressions`
   * (v2), `motions` (v2) and `FileReferences` (v3).
   */
  datatype Setting = Setting(
    expressions: Field<seq<ExpressionEntry>>,
    motions: Field<MotionGroups>,
    fileReferences: Field<FileReferences>)

  /** How an `async` function's promise settles: with a value, or rejected with a `TypeError`. */
  datatype Settled<+T> = Resolves(value: T) | Rejects

  /** What `JSON.parse` gave: a falsy value (`null`, `false`, `0`, `""`) or an object. */
  datatype Loaded = Falsy | Record(setting: Setting)

  // ---------------------------------------------------------------------------
  // Maps in insertion order
  // ---------------------------------------------------------------------------

  type Table<V> = seq<(string, V)>

  /** `Array.from(map.keys())`. */
  function Keys<V>(t: Table<V>): (r: seq<string>)
    ensures |r| == |t| && forall i :: 0 <= i < |t| ==> r[i] == t[i].0
  {
    seq(|t|, i requires 0 <= i < |t| => t[i].0)
  }

  /** `map.get(k)`. */
  function Lookup<V>(t: Table<V>, k: string): Option<V>
    decreases |t|
  {
    if t == [] then None
    else if t[0].0 == k then Some(t[0].1)
    else Lookup(t[1..], k)
  }

  predicate NoDuplicates(s: seq<string>) {
    forall i, j :: 0 <= i < j < |s| ==> s[i] != s[j]
  }

  /** `map.set(k, v)`: an existing key keeps its place and takes the new value; a new key goes last. */
  function Put<V>(t: Table<V>, k: string, v: V): (r: Table<V>)
    decreases |t|
  {
    if t == [] then [(k, v)]
    else if t[0].0 == k then [(k, v)] + t[1..]
    else [t[0]] + Put(t[1..], k, v)
  }

  lemma KeysCons<V>(x: (string, V), t: Table<V>)
    ensures Keys([x] + t) == [x.0] + Keys(t)
  {
  }

  lemma {:induction false} PutLookup<V>(t: Table<V>, k: string, v: V)
    ensures Lookup(Put(t, k, v), k) == Some(v)
    ensures forall k' :: k' != k ==> Lookup(Put(t, k, v), k') == Lookup(t, k')
    decreases |t|
  {
    if t != [] && t[0].0 != k {
      PutLookup(t[1..], k, v);
      assert Put(t, k, v)[1..] == Put(t[1..], k, v);
    } else if t != [] {
      assert Put(t, k, v)[1..] == t[1..];
    }
  }

  lemma {:induction false} PutKeys<V>(t: Table<V>, k: string, v: V)
    ensures Keys(Put(t, k, v)) == if k in Keys(t) then Keys(t) else Keys(t) + [k]
    decreases |t|
  {
    if t != [] {
      assert t == [t[0]] + t[1..];
      KeysCons(t[0], t[1..]);
      if t[0].0 == k {
        KeysCons((k, v), t[1..]);
      } else {
        PutKeys(t[1..], k, v);
        KeysCons(t[0], Put(t[1..], k, v));
        assert k in Keys(t) <==> k in Keys(t[1..]);
      }
    }
  }

  /** After `set(k, v)`, `get(k)` is `v`, every other key reads as before, and `k` is last unless it was there. */
  lemma PutFacts<V>(t: Table<V>, k: string, v: V)
    ensures Lookup(Put(t, k, v), k) == Some(v)
    ensures forall k' :: k' != k ==> Lookup(Put(t, k, v), k') == Lookup(t, k')
    ensures Keys(Put(t, k, v)) == if k in Keys(t) then Keys(t) else Keys(t) + [k]
  {
    PutLookup(t, k, v);
    PutKeys(t, k, v);
  }

  /** The map a loop of `set` calls over `pairs` leaves. */
  function Build<V>(pairs: seq<(string, V)>): Table<V>
    decreases |pairs|
  {
    if pairs == [] then []
    else Put(Build(pairs[..|pairs| - 1]), pairs[|pairs| - 1].0, pairs[|pairs| - 1].1)
  }

  /** The value the last pair with key `k` carries. */
  function LastValue<V>(pairs: seq<(string, V)>, k: string): (r: Option<V>)
    ensures r.None? <==> k !in Keys(pairs)
    decreases |pairs|
  {
    if pairs == [] then None
    else if pairs[|pairs| - 1].0 == k then Some(pairs[|pairs| - 1].1)
    else
      assert Keys(pairs) == Keys(pairs[..|pairs| - 1]) + [pairs[|pairs| - 1].0];
      LastValue(pairs[..|pairs| - 1], k)
  }

  /** Each element at its first occurrence, in order. */
  function Dedup(s: seq<string>): (r: seq<string>)
    decreases |s|
  {
    if s == [] then []
    else if s[|s| - 1] in s[..|s| - 1] then Dedup(s[..|s| - 1])
    else Dedup(s[..|s| - 1]) + [s[|s| - 1]]
  }

  /** `Dedup` keeps exactly the elements and repeats none. */
  lemma {:induction false} DedupFacts(s: seq<string>)
    ensures forall x :: x in Dedup(s) <==> x in s
    ensures NoDuplicates(Dedup(s))
    decreases |s|
  {
    if s != [] {
      var init := s[..|s| - 1];
      DedupFacts(init);
      assert s == init + [s[|s| - 1]];
    }
  }

  /**
   * Setting every pair in order: a key reads as its last pair's value, and the
   * keys are the distinct keys in order of first appearance.
   */
  lemma BuildFacts<V>(pairs: seq<(string, V)>)
    ensures forall k :: Lookup(Build(pairs), k) == LastValue(pairs, k)
    ensures Keys(Build(pairs)) == Dedup(Keys(pairs))
  {
    BuildLookup(pairs);
    BuildKeys(pairs);
  }

  lemma {:induction false} BuildLookup<V>(pairs: seq<(string, V)>)
    ensures forall k :: Lookup(Build(pairs), k) == LastValue(pairs, k)
    decreases |pairs|
  {
    if pairs != [] {
      var init := pairs[..|pairs| - 1];
      var last := pairs[|pairs| - 1];
      BuildLookup(init);
      PutLookup(Build(init), last.0, last.1);
    }
  }

  lemma {:induction false} BuildKeys<V>(pairs: seq<(string, V)>)
    ensures Keys(Build(pairs)) == Dedup(Keys(pairs))
    decreases |pairs|
  {
    if pairs != [] {
      var init := pairs[..|pairs| - 1];
      var last := pairs[|pairs| - 1];
      assert pairs == init + [last];
      BuildKeys(init);
      PutKeys(Build(init), last.0, last.1);
      KeysSnoc(init, last);
      DedupSnoc(Keys(init), last.0);
      DedupFacts(Keys(init));
    }
  }

  lemma KeysSnoc<V>(t: Table<V>, x: (string, V))
    ensures Keys(t + [x]) == Keys(t) + [x.0]
  {
    assert (t + [x])[..|t|] == t;
  }

  lemma DedupSnoc(s: seq<string>, x: string)
    ensures Dedup(s + [x]) == if x in s then Dedup(s) else Dedup(s) + [x]
  {
    assert (s + [x])[..|s|] == s;
  }

  // ---------------------------------------------------------------------------
  // The two record shapes
  // ---------------------------------------------------------------------------

  function ExpressionPairs(es: seq<ExpressionEntry>): (r: seq<(string, string)>)
    ensures |r| == |es| && forall i :: 0 <= i < |es| ==> r[i] == (es[i].name, es[i].file)
  {
    seq(|es|, i requires 0 <= i < |es| => (es[i].name, es[i].file))
  }

  /** `entries.map(entry => entry.file)`. */
  function Files(entries: seq<MotionEntry>): (r: seq<string>)
    ensures |r| == |entries| && forall i :: 0 <= i < |entries| ==> r[i] == entries[i].file
  {
    seq(|entries|, i requires 0 <= i < |entries| => entries[i].file)
  }

  function MotionPairs(groups: MotionGroups): (r: seq<(string, seq<string>)>)
    ensures |r| == |groups| && forall i :: 0 <= i < |groups| ==> r[i] == (groups[i].0, Files(groups[i].1))
  {
    seq(|groups|, i requires 0 <= i < |groups| => (groups[i].0, Files(groups[i].1)))
  }

  /**
   * The expression entries `getExpressions` iterates: the v2 `expressions`
   * key first, else v3 `FileReferences.Expressions`, else none. `None` when
   * the loop throws: iterating `null` or `undefined`, or reading a property
   * of a `null` `FileReferences`.
   */
  function ExpressionEntries(s: Setting): Option<seq<ExpressionEntry>> {
    if !s.expressions.Absent? then
      (if s.expressions.Present? then Some(s.expressions.value) else None)
    else if !s.fileReferences.Absent? then
      (if s.fileReferences.Present? && s.fileReferences.value.expressions.Present?
       then Some(s.fileReferences.value.expressions.value) else None)
    else Some([])
  }

  /**
   * The motion groups `getMotions` reads: the v2 `motions` key first, else v3
   * `FileReferences.Motions`, else none. `None` when `Object.entries` is
   * given `null` or `undefined`, or `FileReferences` is `null`.
   */
  function MotionGroupsOf(s: Setting): Option<MotionGroups> {
    if !s.motions.Absent? then
      (if s.motions.Present? then Some(s.motions.value) else None)
    else if !s.fileReferences.Absent? then
      (if s.fileReferences.Present? && s.fileReferences.value.motions.Present?
       then Some(s.fileReferences.value.motions.value) else None)
    else Some([])
  }

  // ---------------------------------------------------------------------------
  // getModel
  // ---------------------------------------------------------------------------

  /** The settings files to try for a model folder, v3 before v2. */
  function Candidates(modelName: string): (r: seq<string>)
    ensures |r| == 2
  {
    [modelName + "/" + modelName + ".model3.json", modelName + "/" + modelName + ".model.json"]
  }

  /** The first path that loads, if any. */
  function FirstLoaded(paths: seq<string>, load: string -> Option<Loaded>): (r: Option<Loaded>)
    ensures r.None? <==> forall j :: 0 <= j < |paths| ==> load(paths[j]).None?
    ensures r.Some? ==> exists i :: 0 <= i < |paths| && r == load(paths[i]) && forall j :: 0 <= j < i ==> load(paths[j]).None?
    decreases |paths|
  {
    if paths == [] then None
    else if load(paths[0]).Some? then load(paths[0])
    else
      var r := FirstLoaded(paths[1..], load);
      assert r.Some? ==> exists i :: 1 <= i < |paths| && r == load(paths[i]) && forall j :: 0 <= j < i ==> load(paths[j]).None?;
      r
  }

  /** What `getModel` returns. */
  function ModelOf(modelName: Option<string>, load: string -> Option<Loaded>): Option<Loaded> {
    if modelName.None? || modelName.value == "" then None
    else FirstLoaded(Candidates(modelName.value), load)
  }

  /**
   * `getModel`: nothing for a missing or empty name; otherwise the v3 file if
   * it loads, else the v2 file if it loads, else nothing.
   */
  lemma GetModelOrder(modelName: Option<string>, load: string -> Option<Loaded>)
    ensures modelName.None? || modelName == Some("") ==> ModelOf(modelName, load).None?
    ensures modelName.Some? && modelName.value != "" ==>
      var c := Candidates(modelName.value);
      && c[0] == modelName.value + "/" + modelName.value + ".model3.json"
      && c[1] == modelName.value + "/" + modelName.value + ".model.json"
      && ModelOf(modelName, load) == if load(c[0]).Some? then load(c[0]) else load(c[1])
  {
    if modelName.Some? && modelName.value != "" {
      var c := Candidates(modelName.value);
      assert c[1..][1..] == [];
      assert FirstLoaded(c[1..], load) == if load(c[1]).Some? then load(c[1]) else FirstLoaded([], load);
    }
  }

  /** `getModel`: tries the candidates in order and returns the first that loads. */
  method GetModel(modelName: Option<string>, load: string -> Option<Loaded>) returns (r: Option<Loaded>)
    ensures r == ModelOf(modelName, load)
  {
    if modelName.None? || modelName.value == "" {
      return None;
    }
    var candidates := Candidates(modelName.value);
    for i := 0 to |candidates|
      invariant forall j :: 0 <= j < i ==> load(candidates[j]).None?
      invariant FirstLoaded(candidates, load) == FirstLoaded(candidates[i..], load)
    {
      assert candidates[i..][1..] == candidates[i + 1..];
      var raw := load(candidates[i]);
      if raw.Some? {
        return raw;
      }
    }
    return None;
  }

  // ---------------------------------------------------------------------------
  // getExpressions, getMotions and the key lists
  // ---------------------------------------------------------------------------

  /**
   * What `getExpressions` settles with: `None` when the model is missing or
   * falsy, a rejection when its loop throws, otherwise the map.
   */
  function ExpressionsOf(modelName: string, load: string -> Option<Loaded>): Settled<Option<Table<string>>> {
    match ModelOf(Some(modelName), load)
    case Some(Record(s)) =>
      (match ExpressionEntries(s)
       case Some(es) => Resolves(Some(Build(ExpressionPairs(es))))
       case None => Rejects)
    case _ => Resolves(None)
  }

  /**
   * What `getMotions` settles with: `None` when the model is missing or falsy,
   * a rejection when `Object.entries` throws, otherwise the map.
   */
  function MotionsOf(modelName: string, load: string -> Option<Loaded>): Settled<Option<Table<seq<string>>>> {
    match ModelOf(Some(modelName), load)
    case Some(Record(s)) =>
      (match MotionGroupsOf(s)
       case Some(gs) => Resolves(Some(Build(MotionPairs(gs))))
       case None => Rejects)
    case _ => Resolves(None)
  }

  /** The settings object `getModel` gives for `modelName`, if it is an object. */
  predicate IsRecord(modelName: string, load: string -> Option<Loaded>) {
    ModelOf(Some(modelName), load).Some? && ModelOf(Some(modelName), load).value.Record?
  }

  /**
   * `getExpressions`: nothing for a missing or falsy model; a rejection for a
   * `null` v2 list, a `null` `FileReferences` or a v3 file without an
   * `Expressions` list; otherwise each expression name reads as the file of
   * its last entry, names are listed once in order of first appearance, and a
   * record of neither shape gives an empty map rather than nothing.
   */
  lemma ExpressionsMeaning(modelName: string, load: string -> Option<Loaded>)
    ensures ExpressionsOf(modelName, load) == Resolves(None) <==> !IsRecord(modelName, load)
    ensures IsRecord(modelName, load) ==>
      var s := ModelOf(Some(modelName), load).value.setting;
      && (s.expressions.Null? ==> ExpressionsOf(modelName, load).Rejects?)
      && (s.expressions.Absent? && s.fileReferences.Null? ==> ExpressionsOf(modelName, load).Rejects?)
      && (s.expressions.Absent? && s.fileReferences.Present? && !s.fileReferences.value.expressions.Present?
          ==> ExpressionsOf(modelName, load).Rejects?)
      && (s.expressions.Absent? && s.fileReferences.Absent? ==> ExpressionsOf(modelName, load) == Resolves(Some([])))
    ensures ExpressionsOf(modelName, load).Resolves? && ExpressionsOf(modelName, load).value.Some? ==>
      var es := ExpressionEntries(ModelOf(Some(modelName), load).value.setting).value;
      var t := ExpressionsOf(modelName, load).value.value;
      && (forall k :: Lookup(t, k) == LastValue(ExpressionPairs(es), k))
      && Keys(t) == Dedup(Keys(ExpressionPairs(es)))
      && NoDuplicates(Keys(t))
      && (es == [] ==> t == [])
  {
    if ExpressionsOf(modelName, load).Resolves? && ExpressionsOf(modelName, load).value.Some? {
      var es := ExpressionEntries(ModelOf(Some(modelName), load).value.setting).value;
      BuildFacts(ExpressionPairs(es));
      DedupFacts(Keys(ExpressionPairs(es)));
    }
  }

  /**
   * `getMotions`: nothing for a missing or falsy model; a rejection for a
   * `null` v2 `motions`, a `null` `FileReferences` or a v3 file without a
   * `Motions` object; otherwise each motion group reads as the files of its
   * entries in entry order, groups are listed once in order, and a record of
   * neither shape gives an empty map.
   */
  lemma MotionsMeaning(modelName: string, load: string -> Option<Loaded>)
    ensures MotionsOf(modelName, load) == Resolves(None) <==> !IsRecord(modelName, load)
    ensures IsRecord(modelName, load) ==>
      var s := ModelOf(Some(modelName), load).value.setting;
      && (s.motions.Null? ==> MotionsOf(modelName, load).Rejects?)
      && (s.motions.Absent? && s.fileReferences.Null? ==> MotionsOf(modelName, load).Rejects?)
      && (s.motions.Absent? && s.fileReferences.Present? && !s.fileReferences.value.motions.Present?
          ==> MotionsOf(modelName, load).Rejects?)
      && (s.motions.Absent? && s.fileReferences.Absent? ==> MotionsOf(modelName, load) == Resolves(Some([])))
    ensures MotionsOf(modelName, load).Resolves? && MotionsOf(modelName, load).value.Some? ==>
      var gs := MotionGroupsOf(ModelOf(Some(modelName), load).value.setting).value;
      var t := MotionsOf(modelName, load).value.value;
      && (forall k :: Lookup(t, k) == LastValue(MotionPairs(gs), k))
      && Keys(t) == Dedup(Keys(MotionPairs(gs)))
      && NoDuplicates(Keys(t))
      && (gs == [] ==> t == [])
  {
    if MotionsOf(modelName, load).Resolves? && MotionsOf(modelName, load).value.Some? {
      var gs := MotionGroupsOf(ModelOf(Some(modelName), load).value.setting).value;
      BuildFacts(MotionPairs(gs));
      DedupFacts(Keys(MotionPairs(gs)));
    }
  }

  /** The last expression entry named `k` decides its file; no entry, no file. */
  lemma {:induction false} LastEntryWins(es: seq<ExpressionEntry>, k: string, i: nat)
    requires i < |es| && es[i].name == k
    requires forall j :: i < j < |es| ==> es[j].name != k
    ensures LastValue(ExpressionPairs(es), k) == Some(es[i].file)
    decreases |es|
  {
    var ps := ExpressionPairs(es);
    assert ps[|ps| - 1] == (es[|es| - 1].name, es[|es| - 1].file);
    if i < |es| - 1 {
      var init := es[..|es| - 1];
      assert ExpressionPairs(init) == ps[..|ps| - 1];
      assert LastValue(ps, k) == LastValue(ps[..|ps| - 1], k);
      LastEntryWins(init, k, i);
    }
  }

  /** The `for` loop of `set` calls over the pairs. */
  method SetAll<V>(pairs: seq<(string, V)>) returns (t: Table<V>)
    ensures t == Build(pairs)
  {
    t := [];
    for i := 0 to |pairs|
      invariant t == Build(pairs[..i])
    {
      assert pairs[..i + 1][..i] == pairs[..i];
      t := Put(t, pairs[i].0, pairs[i].1);
    }
    assert pairs[..|pairs|] == pairs;
  }

  /**
   * `getExpressions`: nothing for a missing or falsy model; otherwise the
   * `set` loop over the v2 list, else over the v3 list, else an empty map.
   */
  method GetExpressions(modelName: string, load: string -> Option<Loaded>) returns (r: Settled<Option<Table<string>>>)
    ensures r == ExpressionsOf(modelName, load)
  {
    var model := GetModel(Some(modelName), load);
    if model.None? || model.value.Falsy? {
      return Resolves(None);
    }
    var s := model.value.setting;
    var entries: seq<ExpressionEntry> := [];
    if !s.expressions.Absent? {
      if s.expressions.Null? {
        return Rejects;
      }
      entries := s.expressions.value;
    } else if !s.fileReferences.Absent? {
      if s.fileReferences.Null? || !s.fileReferences.value.expressions.Present? {
        return Rejects;
      }
      entries := s.fileReferences.value.expressions.value;
    }
    var expressions := SetAll(ExpressionPairs(entries));
    return Resolves(Some(expressions));
  }

  /**
   * `getMotions`: nothing for a missing or falsy model; otherwise the `set`
   * loop over the v2 groups, else over the v3 groups, else an empty map.
   */
  method GetMotions(modelName: string, load: string -> Option<Loaded>) returns (r: Settled<Option<Table<seq<string>>>>)
    ensures r == MotionsOf(modelName, load)
  {
    var model := GetModel(Some(modelName), load);
    if model.None? || model.value.Falsy? {
      return Resolves(None);
    }
    var s := model.value.setting;
    var groups: MotionGroups := [];
    if !s.motions.Absent? {
      if s.motions.Null? {
        return Rejects;
      }
      groups := s.motions.value;
    } else if !s.fileReferences.Absent? {
      if s.fileReferences.Null? || !s.fileReferences.value.motions.Present? {
        return Rejects;
      }
      groups := s.fileReferences.value.motions.value;
    }
    var motions := SetAll(MotionPairs(groups));
    return Resolves(Some(motions));
  }

  /**
   * `getAllExpressions`: rejects when `getExpressions` does; `[]` when there
   * is no map, else its keys: each expression name once, in order.
   */
  method GetAllExpressions(modelName: string, load: string -> Option<Loaded>) returns (r: Settled<seq<string>>)
    ensures r.Rejects? <==> ExpressionsOf(modelName, load).Rejects?
    ensures ExpressionsOf(modelName, load) == Resolves(None) ==> r == Resolves([])
    ensures ExpressionsOf(modelName, load).Resolves? && ExpressionsOf(modelName, load).value.Some? ==>
      r == Resolves(Keys(ExpressionsOf(modelName, load).value.value))
    ensures r.Resolves? ==> NoDuplicates(r.value)
  {
    var model := GetExpressions(modelName, load);
    ExpressionsMeaning(modelName, load);
    if model.Rejects? {
      return Rejects;
    }
    if model.value.None? {
      return Resolves([]);
    }
    return Resolves(Keys(model.value.value));
  }

  /**
   * `getAllMotions`: rejects when `getMotions` does; `[]` when there is no
   * map, else its keys: each motion group once, in order.
   */
  method GetAllMotions(modelName: string, load: string -> Option<Loaded>) returns (r: Settled<seq<string>>)
    ensures r.Rejects? <==> MotionsOf(modelName, load).Rejects?
    ensures MotionsOf(modelName, load) == Resolves(None) ==> r == Resolves([])
    ensures MotionsOf(modelName, load).Resolves? && MotionsOf(modelName, load).value.Some? ==>
      r == Resolves(Keys(MotionsOf(modelName, load).value.value))
    ensures r.Resolves? ==> NoDuplicates(r.value)
  {
    var model := GetMotions(modelName, load);
    MotionsMeaning(modelName, load);
    if model.Rejects? {
      return Rejects;
    }
    if model.value.None? {
      return Resolves([]);
    }
    return Resolves(Keys(model.value.value));
  }
}
