/**
 * DataLakeIotdbManagement: the data-lake catalogue over a measure store.
 * The store (CouchDB behind IDataLakeStorage) is a class over a sequence of
 * measures; the tag rows and the measurement list it reads from IoTDB and
 * the catalogue are inputs.
 */
module DataLakeManagement {
  import opened JavaText
  import opened Schema
  import TagProvider

  // ---------------------------------------------------------------------------
  // compareEventProperties

  /** The number of property nodes in a tree or a forest; it bounds the comparison's recursion. */
  function Size(ep: EventProperty): (n: nat)
    ensures n >= 1
    decreases ep, 1
  {
    match ep
    case Primitive(_, _, _) => 1
    case ListProperty(_, item, _) => 1 + Size(item)
    case Nested(_, children, _) => 1 + SizeList(children)
  }

  function SizeList(eps: seq<EventProperty>): (n: nat)
    ensures forall i | 0 <= i < |eps| :: Size(eps[i]) <= n
    ensures |eps| == 1 ==> n == Size(eps[0])
    decreases eps, 0
  {
    if eps == [] then 0
    else
      var rest := SizeList(eps[1..]);
      assert forall i | 1 <= i < |eps| :: eps[i] == eps[1..][i - 1];
      Size(eps[0]) + rest
  }

  /** The two properties are of the same kind: both primitive, both lists or both nested. */
  predicate SameKind(a: EventProperty, b: EventProperty) {
    (a.Primitive? && b.Primitive?) || (a.ListProperty? && b.ListProperty?) || (a.Nested? && b.Nested?)
  }

  /** A candidate `b` can match `a`: same runtime name and kind, and for primitives the same runtime type. */
  predicate CanMatch(a: EventProperty, b: EventProperty) {
    a.runtimeName == b.runtimeName && SameKind(a, b) && (a.Primitive? ==> a.runtimeType == b.runtimeType)
  }

  /**
   * compareEventProperties: the lists have the same size and every property
   * of the first finds its match in the second.
   */
  function Compare(p1: seq<EventProperty>, p2: seq<EventProperty>): (r: bool)
    ensures r ==> |p1| == |p2|
    ensures r ==> forall i | 0 <= i < |p1| :: exists j | 0 <= j < |p2| :: CanMatch(p1[i], p2[j])
    decreases SizeList(p1), 2
  {
    |p1| == |p2| && AllMatch(p1, p2)
  }

  /** allMatch: every property of `xs` finds its match in `p2`. */
  function AllMatch(xs: seq<EventProperty>, p2: seq<EventProperty>): (r: bool)
    ensures r <==> forall i | 0 <= i < |xs| :: MatchIn(xs[i], p2)
    decreases SizeList(xs), 1
  {
    if xs == [] then true
    else
      var head := MatchIn(xs[0], p2);
      var tail := AllMatch(xs[1..], p2);
      assert forall i | 1 <= i < |xs| :: xs[i] == xs[1..][i - 1];
      head && tail
  }

  /**
   * The loop over `p2` for one property: the first same-named candidate of
   * the same kind decides. Primitives match on equal runtime types and
   * otherwise the loop goes on; lists compare their items and nested
   * properties their children. A same-named candidate of another kind is
   * skipped.
   */
  function MatchIn(prop: EventProperty, p2: seq<EventProperty>): (r: bool)
    ensures r ==> exists j | 0 <= j < |p2| :: CanMatch(prop, p2[j])
    decreases Size(prop), 0, |p2|
  {
    if p2 == [] then false
    else
      var q := p2[0];
      var rest := MatchIn(prop, p2[1..]);
      assert rest ==> exists j | 1 <= j < |p2| :: CanMatch(prop, p2[j]) by {
        if rest {
          var j :| 0 <= j < |p2[1..]| && CanMatch(prop, p2[1..][j]);
          assert p2[j + 1] == p2[1..][j];
        }
      }
      if prop.runtimeName == q.runtimeName then
        if prop.Primitive? && q.Primitive? then
          if prop.runtimeType == q.runtimeType then true else rest
        else if prop.ListProperty? && q.ListProperty? then
          assert CanMatch(prop, p2[0]);
          Compare([prop.item], [q.item])
        else if prop.Nested? && q.Nested? then
          assert CanMatch(prop, p2[0]);
          Compare(prop.children, q.children)
        else rest
      else rest
  }

  /** Two empty property lists compare equal. */
  lemma EmptyListsCompareEqual()
    ensures Compare([], [])
  {
  }

  /** Lists of different lengths never compare equal. */
  lemma DifferentLengthsCompareUnequal(p1: seq<EventProperty>, p2: seq<EventProperty>)
    requires |p1| != |p2|
    ensures !Compare(p1, p2)
  {
  }

  /** A same-named candidate of another kind is passed over: the comparison looks further along. */
  lemma {:induction false} OtherKindIsSkipped(prop: EventProperty, q: EventProperty, rest: seq<EventProperty>)
    requires prop.runtimeName == q.runtimeName && !SameKind(prop, q)
    ensures MatchIn(prop, [q] + rest) == MatchIn(prop, rest)
  {
    assert ([q] + rest)[1..] == rest;
  }

  /** The first same-named list candidate decides by comparing the items. */
  lemma {:induction false} ListsCompareItems(prop: EventProperty, q: EventProperty, rest: seq<EventProperty>)
    requires prop.ListProperty? && q.ListProperty? && prop.runtimeName == q.runtimeName
    ensures MatchIn(prop, [q] + rest) == Compare([prop.item], [q.item])
  {
    assert ([q] + rest)[0] == q;
  }

  /** The first same-named nested candidate decides by comparing the children. */
  lemma {:induction false} NestedCompareChildren(prop: EventProperty, q: EventProperty, rest: seq<EventProperty>)
    requires prop.Nested? && q.Nested? && prop.runtimeName == q.runtimeName
    ensures MatchIn(prop, [q] + rest) == Compare(prop.children, q.children)
  {
    assert ([q] + rest)[0] == q;
  }

  /**
   * Candidate `b` decides the loop for `a`: the same runtime name, and both
   * primitives of the same runtime type, both lists or both nested.
   */
  predicate Decides(a: EventProperty, b: EventProperty) {
    && a.runtimeName == b.runtimeName
    && ((a.Primitive? && b.Primitive? && a.runtimeType == b.runtimeType)
        || (a.ListProperty? && b.ListProperty?)
        || (a.Nested? && b.Nested?))
  }

  /** The answer a deciding candidate gives: primitives match, lists compare items, nested properties children. */
  function Verdict(a: EventProperty, b: EventProperty): bool
    requires Decides(a, b)
  {
    match a
    case Primitive(_, _, _) => true
    case ListProperty(_, item, _) => Compare([item], [b.item])
    case Nested(_, children, _) => Compare(children, b.children)
  }

  /** `p2[j]` is the first candidate in `p2` that decides for `prop`. */
  predicate FirstDecider(prop: EventProperty, p2: seq<EventProperty>, j: int) {
    0 <= j < |p2| && Decides(prop, p2[j]) && forall i | 0 <= i < j :: !Decides(prop, p2[i])
  }

  /**
   * The loop's answer is exactly the verdict of the first deciding
   * candidate, and false when no candidate decides.
   */
  lemma {:induction false} MatchInFirstDecides(prop: EventProperty, p2: seq<EventProperty>)
    ensures MatchIn(prop, p2) <==> exists j :: FirstDecider(prop, p2, j) && Verdict(prop, p2[j])
    decreases |p2|
  {
    if p2 != [] {
      var rest := p2[1..];
      if Decides(prop, p2[0]) {
        assert FirstDecider(prop, p2, 0);
        assert forall j | FirstDecider(prop, p2, j) :: j == 0;
      } else {
        assert MatchIn(prop, p2) == MatchIn(prop, rest);
        MatchInFirstDecides(prop, rest);
        forall j | FirstDecider(prop, p2, j) ensures FirstDecider(prop, rest, j - 1) && p2[j] == rest[j - 1] {
          assert j != 0;
          forall i | 0 <= i < j - 1 ensures !Decides(prop, rest[i]) {
            assert rest[i] == p2[i + 1];
          }
        }
        forall j | FirstDecider(prop, rest, j) ensures FirstDecider(prop, p2, j + 1) && p2[j + 1] == rest[j] {
          forall i | 0 <= i < j + 1 ensures !Decides(prop, p2[i]) {
            if i > 0 {
              assert p2[i] == rest[i - 1];
            }
          }
        }
      }
    }
  }

  /** The runtime names of a list are distinct, and so are those of every list of children within it. */
  predicate DistinctNames(ps: seq<EventProperty>)
    decreases ps, 1
  {
    && (forall i, j | 0 <= i < j < |ps| :: ps[i].runtimeName != ps[j].runtimeName)
    && (forall i | 0 <= i < |ps| :: DistinctWithin(ps[i]))
  }

  predicate DistinctWithin(ep: EventProperty)
    decreases ep, 0
  {
    match ep
    case Primitive(_, _, _) => true
    case ListProperty(_, item, _) => DistinctWithin(item)
    case Nested(_, children, _) => DistinctNames(children)
  }

  /** A property list with distinct names, at every level, compares equal to itself. */
  lemma {:induction false} CompareReflexive(ps: seq<EventProperty>)
    requires DistinctNames(ps)
    ensures Compare(ps, ps)
    decreases SizeList(ps), 1
  {
    forall i | 0 <= i < |ps| ensures MatchIn(ps[i], ps) {
      MatchesItself(ps[i], ps, i);
    }
  }

  /** A property finds itself in a list where no earlier property has its name. */
  lemma {:induction false} MatchesItself(prop: EventProperty, ps: seq<EventProperty>, k: int)
    requires 0 <= k < |ps| && ps[k] == prop && DistinctWithin(prop)
    requires forall j | 0 <= j < k :: ps[j].runtimeName != prop.runtimeName
    ensures MatchIn(prop, ps)
    decreases Size(prop), 0, |ps|
  {
    if k > 0 {
      MatchesItself(prop, ps[1..], k - 1);
    } else {
      match prop
      case Primitive(_, _, _) =>
      case ListProperty(_, item, _) =>
        assert DistinctNames([item]);
        CompareReflexive([item]);
      case Nested(_, children, _) =>
        CompareReflexive(children);
    }
  }

  // ---------------------------------------------------------------------------
  // The measure store

  /** findOne: the first measure with the element id, or null. */
  function FindById(ms: seq<Measure>, elementId: string): (r: Option<Measure>)
    ensures r.None? <==> forall i | 0 <= i < |ms| :: ms[i].elementId != elementId
    ensures r.Some? ==> r.value in ms && r.value.elementId == elementId
  {
    if ms == [] then None
    else if ms[0].elementId == elementId then Some(ms[0])
    else FindById(ms[1..], elementId)
  }

  /** The first measure with the measure name, as a stream's findFirst gives it, or empty. */
  function FindByName(ms: seq<Measure>, measureName: string): (r: Option<Measure>)
    ensures r.None? <==> forall i | 0 <= i < |ms| :: ms[i].measureName != measureName
    ensures r.Some? ==> r.value in ms && r.value.measureName == measureName
    ensures r.Some? ==> exists k | 0 <= k < |ms| :: ms[k] == r.value && forall j | 0 <= j < k :: ms[j].measureName != measureName
  {
    if ms == [] then None
    else if ms[0].measureName == measureName then Some(ms[0])
    else
      var r := FindByName(ms[1..], measureName);
      assert r.Some? ==> exists k | 1 <= k < |ms| :: ms[k] == r.value && forall j | 0 <= j < k :: ms[j].measureName != measureName by {
        if r.Some? {
          var k :| 0 <= k < |ms[1..]| && ms[1..][k] == r.value && forall j | 0 <= j < k :: ms[1..][j].measureName != measureName;
          assert ms[k + 1] == r.value;
          forall j | 0 <= j < k + 1 ensures ms[j].measureName != measureName {
            if j > 0 {
              assert ms[j] == ms[1..][j - 1];
            }
          }
        }
      }
      r
  }

  /** The store after an update: every document with the measure's id replaced by it. */
  function Replaced(ms: seq<Measure>, m: Measure): (r: seq<Measure>)
    ensures |r| == |ms|
    ensures forall i | 0 <= i < |ms| :: r[i] == if ms[i].elementId == m.elementId then m else ms[i]
  {
    seq(|ms|, i requires 0 <= i < |ms| => if ms[i].elementId == m.elementId then m else ms[i])
  }

  /** The store after a delete: every document with the id removed, the others kept in order. */
  function Removed(ms: seq<Measure>, elementId: string): (r: seq<Measure>)
    ensures |r| <= |ms|
    ensures forall i | 0 <= i < |r| :: r[i] in ms && r[i].elementId != elementId
    ensures forall m | m in ms && m.elementId != elementId :: m in r
  {
    if ms == [] then []
    else
      var rest := Removed(ms[1..], elementId);
      assert forall m | m in ms && m != ms[0] :: m in ms[1..];
      if ms[0].elementId == elementId then rest else [ms[0]] + rest
  }

  /** After an update of a stored id, finding that id gives the update; other ids are found as before. */
  lemma {:induction false} FindAfterReplace(ms: seq<Measure>, m: Measure, elementId: string)
    requires FindById(ms, m.elementId).Some?
    ensures FindById(Replaced(ms, m), m.elementId) == Some(m)
    ensures elementId != m.elementId ==> FindById(Replaced(ms, m), elementId) == FindById(ms, elementId)
  {
    if ms != [] {
      var r := Replaced(ms, m);
      assert r[1..] == Replaced(ms[1..], m);
      if ms[0].elementId != m.elementId {
        FindAfterReplace(ms[1..], m, elementId);
      } else if FindById(ms[1..], m.elementId).Some? {
        FindAfterReplace(ms[1..], m, elementId);
      } else if elementId != m.elementId {
        FindOtherAfterReplace(ms[1..], m, elementId);
      }
    }
  }

  /** An update leaves the documents with other ids where they were. */
  lemma {:induction false} FindOtherAfterReplace(ms: seq<Measure>, m: Measure, elementId: string)
    requires elementId != m.elementId
    ensures FindById(Replaced(ms, m), elementId) == FindById(ms, elementId)
  {
    if ms != [] {
      assert Replaced(ms, m)[1..] == Replaced(ms[1..], m);
      FindOtherAfterReplace(ms[1..], m, elementId);
    }
  }

  /** After a delete the id is gone; other ids are found as before. */
  lemma {:induction false} FindAfterRemove(ms: seq<Measure>, elementId: string, other: string)
    ensures FindById(Removed(ms, elementId), elementId).None?
    ensures other != elementId ==> FindById(Removed(ms, elementId), other) == FindById(ms, other)
  {
    if ms != [] {
      FindAfterRemove(ms[1..], elementId, other);
      var rest := Removed(ms[1..], elementId);
      if ms[0].elementId != elementId {
        assert ([ms[0]] + rest)[1..] == rest;
      }
    }
  }

  /** Appending a measure changes what is found only for an id that was not there before. */
  lemma {:induction false} FindAppend(ms: seq<Measure>, m: Measure, elementId: string)
    ensures FindById(ms + [m], elementId) ==
              if FindById(ms, elementId).Some? then FindById(ms, elementId)
              else if m.elementId == elementId then Some(m) else None
  {
    if ms != [] {
      assert (ms + [m])[1..] == ms[1..] + [m];
      FindAppend(ms[1..], m, elementId);
    } else {
      assert [] + [m] == [m];
    }
  }

  /** Appending a measure whose name is new makes it the one found by that name. */
  lemma {:induction false} FindByNameAfterAppend(ms: seq<Measure>, m: Measure)
    requires FindByName(ms, m.measureName).None?
    ensures FindByName(ms + [m], m.measureName) == Some(m)
  {
    if ms != [] {
      assert (ms + [m])[1..] == ms[1..] + [m];
      FindByNameAfterAppend(ms[1..], m);
    } else {
      assert [] + [m] == [m];
    }
  }

  /** The data-lake storage: the catalogue's documents, in storage order. */
  class DataLakeStorage {
    var measures: seq<Measure>

    constructor (measures: seq<Measure>)
      ensures this.measures == measures
    {
      this.measures := measures;
    }

    /** getAllDataLakeMeasures. */
    function GetAll(): (r: seq<Measure>)
      reads this
      ensures r == measures
    {
      measures
    }

    /** findOne by element id. */
    function FindOne(elementId: string): (r: Option<Measure>)
      reads this
      ensures r.None? <==> forall i | 0 <= i < |measures| :: measures[i].elementId != elementId
      ensures r.Some? ==> r.value in measures && r.value.elementId == elementId
    {
      FindById(measures, elementId)
    }

    /** storeDataLakeMeasure: a new document after the others. */
    method StoreMeasure(m: Measure)
      modifies this
      ensures measures == old(measures) + [m]
    {
      measures := measures + [m];
    }

    /** updateDataLakeMeasure: the document with the measure's id replaced. */
    method UpdateMeasure(m: Measure)
      modifies this
      ensures measures == Replaced(old(measures), m)
    {
      measures := Replaced(measures, m);
    }

    /** deleteDataLakeMeasure: the document with the id removed. */
    method DeleteMeasure(elementId: string)
      modifies this
      ensures measures == Removed(old(measures), elementId)
    {
      measures := Removed(measures, elementId);
    }
  }

  /**
   * updateDataLake: an upsert. A measure whose id is stored takes the stored
   * rev and replaces it; any other measure is stored.
   */
  method UpdateDataLake(store: DataLakeStorage, measure: Measure)
    modifies store
    ensures var existing := FindById(old(store.measures), measure.elementId);
            store.measures ==
              if existing.Some? then Replaced(old(store.measures), measure.(rev := existing.value.rev))
              else old(store.measures) + [measure]
    ensures store.FindOne(measure.elementId).Some?
  {
    var existing := store.FindOne(measure.elementId);
    if existing.Some? {
      var updated := measure.(rev := existing.value.rev);
      store.UpdateMeasure(updated);
      FindAfterReplace(old(store.measures), updated, updated.elementId);
    } else {
      store.StoreMeasure(measure);
      FindAppend(old(store.measures), measure, measure.elementId);
    }
  }

  const MEASURE_NOT_FOUND: string := "Could not find measure with this ID"

  /** deleteDataLakeMeasure: removes a stored id, and fails leaving the store as it was otherwise. */
  method DeleteDataLakeMeasure(store: DataLakeStorage, elementId: string) returns (r: Result<()>)
    modifies store
    ensures r.Err? <==> FindById(old(store.measures), elementId).None?
    ensures r.Err? ==> r.message == MEASURE_NOT_FOUND && store.measures == old(store.measures)
    ensures r.Ok? ==> store.measures == Removed(old(store.measures), elementId)
    ensures store.FindOne(elementId).None?
  {
    if store.FindOne(elementId).Some? {
      store.DeleteMeasure(elementId);
      FindAfterRemove(old(store.measures), elementId, elementId);
      r := Ok(());
    } else {
      r := Err(MEASURE_NOT_FOUND);
    }
  }

  /**
   * addDataLake: a measure with a new name is stored with the current schema
   * version and returned. With a name already stored nothing is stored: the
   * stored entry is returned when the property lists differ, and the
   * argument otherwise.
   */
  method AddDataLake(store: DataLakeStorage, measure: Measure, currentSchemaVersion: string) returns (r: Measure)
    modifies store
    ensures var prior := FindByName(old(store.measures), measure.measureName);
            && (prior.None? ==>
                  && r == measure.(schemaVersion := Some(currentSchemaVersion))
                  && store.measures == old(store.measures) + [r])
            && (prior.Some? ==>
                  && store.measures == old(store.measures)
                  && r == if Compare(prior.value.eventProperties, measure.eventProperties) then measure else prior.value)
    ensures FindByName(store.measures, measure.measureName).Some?
  {
    var entries := store.GetAll();
    var optional := FindByName(entries, measure.measureName);
    if optional.Some? {
      var oldEntry := optional.value;
      if !Compare(oldEntry.eventProperties, measure.eventProperties) {
        return oldEntry;
      }
    } else {
      r := measure.(schemaVersion := Some(currentSchemaVersion));
      store.StoreMeasure(r);
      FindByNameAfterAppend(old(store.measures), r);
      return r;
    }
    r := measure;
  }

  /**
   * removeMeasurement over the catalogue's measures: the delete query is
   * issued for the first measure of that name, and its outcome (an input
   * here) is the result; false when no measure has the name.
   */
  method RemoveMeasurement(allMeasurements: seq<Measure>, measurementId: string, deleteSucceeds: bool)
    returns (removed: bool, deleteIssued: bool)
    ensures deleteIssued <==> exists i | 0 <= i < |allMeasurements| :: allMeasurements[i].measureName == measurementId
    ensures removed <==> deleteIssued && deleteSucceeds
  {
    for i := 0 to |allMeasurements|
      invariant forall j | 0 <= j < i :: allMeasurements[j].measureName != measurementId
    {
      if allMeasurements[i].measureName == measurementId {
        return deleteSucceeds, true;
      }
    }
    return false, false;
  }

  // ---------------------------------------------------------------------------
  // getTagValues

  /** The values at index i of the arrays that are among the requested fields. */
  function Requested(arrays: seq<seq<string>>, i: nat, fieldList: seq<string>): (r: set<string>)
    requires forall a | a in arrays :: i < |a|
    ensures forall v :: v in r <==> v in fieldList && exists a | a in arrays :: a[i] == v
  {
    set a | a in arrays && a[i] in fieldList :: a[i]
  }

  /**
   * The map the key loop fills: each key whose requested values are not
   * empty is put with that set, a later key of the same name overwriting
   * an earlier one.
   */
  function RequestedTags(keys: seq<string>, arrays: seq<seq<string>>, fieldList: seq<string>)
    : (r: map<string, set<string>>)
    requires forall a | a in arrays :: |keys| <= |a|
  {
    if keys == [] then map[]
    else
      var i := |keys| - 1;
      var init := RequestedTags(keys[..i], arrays, fieldList);
      var valueSet := Requested(arrays, i, fieldList);
      if valueSet != {} then init[keys[i] := valueSet] else init
  }

  /** Every key in the map is a tag key whose value set is non-empty and drawn from the requested fields. */
  lemma {:induction false} RequestedTagsKeys(keys: seq<string>, arrays: seq<seq<string>>, fieldList: seq<string>)
    requires forall a | a in arrays :: |keys| <= |a|
    ensures var r := RequestedTags(keys, arrays, fieldList);
            forall k | k in r :: k in keys && r[k] != {} && forall v | v in r[k] :: v in fieldList
  {
    if keys != [] {
      var i := |keys| - 1;
      var init := keys[..i];
      RequestedTagsKeys(init, arrays, fieldList);
      var r := RequestedTags(keys, arrays, fieldList);
      var r0 := RequestedTags(init, arrays, fieldList);
      forall k | k in r
        ensures k in keys && r[k] != {} && forall v | v in r[k] :: v in fieldList
      {
        if k == keys[i] && Requested(arrays, i, fieldList) != {} {
          assert r[k] == Requested(arrays, i, fieldList);
        } else {
          assert k in r0 && r[k] == r0[k];
          assert k in init;
        }
      }
    }
  }

  /** `vs` is the set of requested values at position `i`, and `k` the key there. */
  predicate ValuesAt(keys: seq<string>, arrays: seq<seq<string>>, fieldList: seq<string>, i: int, k: string, vs: set<string>) {
    && 0 <= i < |keys| && keys[i] == k
    && (forall a | a in arrays :: i < |a|)
    && vs == Requested(arrays, i, fieldList)
  }

  /** The values of a key are the requested values at one of the key's positions. */
  lemma {:induction false} RequestedTagsValues(keys: seq<string>, arrays: seq<seq<string>>, fieldList: seq<string>)
    requires forall a | a in arrays :: |keys| <= |a|
    ensures forall k | k in RequestedTags(keys, arrays, fieldList) ::
              exists i :: ValuesAt(keys, arrays, fieldList, i, k, RequestedTags(keys, arrays, fieldList)[k])
  {
    if keys != [] {
      var i := |keys| - 1;
      var init := keys[..i];
      RequestedTagsValues(init, arrays, fieldList);
      var r := RequestedTags(keys, arrays, fieldList);
      var r0 := RequestedTags(init, arrays, fieldList);
      forall k | k in r
        ensures exists j :: ValuesAt(keys, arrays, fieldList, j, k, r[k])
      {
        if k == keys[i] && Requested(arrays, i, fieldList) != {} {
          assert ValuesAt(keys, arrays, fieldList, i, k, r[k]);
        } else {
          assert k in r0 && r[k] == r0[k];
          var j :| ValuesAt(init, arrays, fieldList, j, k, r0[k]);
          assert ValuesAt(keys, arrays, fieldList, j, k, r[k]);
        }
      }
    }
  }

  /** Every position with a requested value puts its key into the map. */
  lemma {:induction false} RequestedTagsComplete(keys: seq<string>, arrays: seq<seq<string>>, fieldList: seq<string>)
    requires forall a | a in arrays :: |keys| <= |a|
    ensures var r := RequestedTags(keys, arrays, fieldList);
            forall i | 0 <= i < |keys| && Requested(arrays, i, fieldList) != {} :: keys[i] in r
  {
    if keys != [] {
      var i := |keys| - 1;
      var init := keys[..i];
      RequestedTagsComplete(init, arrays, fieldList);
      var r := RequestedTags(keys, arrays, fieldList);
      forall j | 0 <= j < |keys| && Requested(arrays, j, fieldList) != {} ensures keys[j] in r {
        if j < i {
          assert init[j] == keys[j];
        }
      }
    }
  }

  /**
   * Every key in the map is a tag key whose value set is non-empty, drawn
   * from the requested fields and found at one of the key's positions, and
   * every position with a requested value puts its key into the map.
   */
  lemma RequestedTagsShape(keys: seq<string>, arrays: seq<seq<string>>, fieldList: seq<string>)
    requires forall a | a in arrays :: |keys| <= |a|
    ensures var r := RequestedTags(keys, arrays, fieldList);
            && (forall k | k in r :: k in keys && r[k] != {} && forall v | v in r[k] :: v in fieldList)
            && (forall k | k in r :: exists i | 0 <= i < |keys| :: keys[i] == k && r[k] == Requested(arrays, i, fieldList))
            && (forall i | 0 <= i < |keys| && Requested(arrays, i, fieldList) != {} :: keys[i] in r)
  {
    RequestedTagsKeys(keys, arrays, fieldList);
    RequestedTagsValues(keys, arrays, fieldList);
    RequestedTagsComplete(keys, arrays, fieldList);
    var r := RequestedTags(keys, arrays, fieldList);
    forall k | k in r ensures exists i | 0 <= i < |keys| :: keys[i] == k && r[k] == Requested(arrays, i, fieldList) {
      var i :| ValuesAt(keys, arrays, fieldList, i, k, r[k]);
    }
  }

  /**
   * getTagValues: an empty map when no fields are asked for (null or ""),
   * when the measurement has no tag keys or no tag values; otherwise the
   * requested values of each tag key. The tag rows are inputs, as for getTags.
   */
  method GetTagValues(bucket: string, measurementId: string, fields: Option<string>,
                      storedKeys: Option<string>, firstDevice: Option<string>)
    returns (r: Result<map<string, set<string>>>)
    ensures fields.None? || fields.value == "" ==> r == Ok(map[])
    ensures fields.Some? && fields.value != "" ==>
              var keys := TagProvider.GetTagKeys(storedKeys);
              && (keys.None? ==> r == Ok(map[]))
              && (keys.Some? ==>
                    var found := TagProvider.GetTagValues(bucket, measurementId, firstDevice, |keys.value|);
                    r == if found.Err? then Err(found.message)
                         else if found.value == [] then Ok(map[])
                         else Ok(RequestedTags(keys.value, found.value, Split(fields.value, ','))))
  {
    var tags: map<string, set<string>> := map[];
    if fields.Some? && fields.value != "" {
      var fieldList := Split(fields.value, ',');
      var tagKeys := TagProvider.GetTagKeys(storedKeys);
      if tagKeys.None? {
        return Ok(tags);
      }
      var keys := tagKeys.value;
      var tagValues := TagProvider.GetTagValues(bucket, measurementId, firstDevice, |keys|);
      if tagValues.Err? {
        return Err(tagValues.message);
      }
      if tagValues.value == [] {
        return Ok(tags);
      }
      tags := FillRequestedTags(keys, tagValues.value, fieldList);
      return Ok(tags);
    }
    return Ok(tags);
  }

  /** The key loop of getTagValues: key by key, the non-empty requested value sets. */
  method FillRequestedTags(keys: seq<string>, arrays: seq<seq<string>>, fieldList: seq<string>)
    returns (tags: map<string, set<string>>)
    requires forall a | a in arrays :: |keys| <= |a|
    ensures tags == RequestedTags(keys, arrays, fieldList)
  {
    tags := map[];
    for i := 0 to |keys|
      invariant tags == RequestedTags(keys[..i], arrays, fieldList)
    {
      assert keys[..i + 1][..i] == keys[..i];
      var valueSet := Requested(arrays, i, fieldList);
      if valueSet != {} {
        tags := tags[keys[i] := valueSet];
      }
    }
    assert keys[..|keys|] == keys;
  }
}
