/**
 * The object tree the adapter keeps its customer and employee channels in:
 * a map from object id to object with set, delete and a range view by string
 * order (the in-memory store of test_full.js), and what reconciling one section
 * of it against the configuration leaves behind.
 */
module ObjectTree {
  import opened Wrappers
  import opened Text
  import opened Records

  /** The `native` part of a channel: the configured record it was made from. */
  datatype Native = CustomerNative(customer: Customer) | EmployeeNative(employee: Employee)

  /** A channel object `{type: 'channel', common: {name, ...}, native}`. */
  datatype TreeObject = Channel(name: string, native: Native)

  /** A row of a view: `{id, obj}`. */
  datatype Row = Row(id: string, obj: TreeObject)

  /** `startkey <= id && id <= endkey` on strings. */
  predicate InView(id: string, startkey: string, endkey: string)
  {
    LexLe(startkey, id) && LexLe(id, endkey)
  }

  /** The ids a view from `startkey` to `endkey` lists. */
  function ViewIds(objects: map<string, TreeObject>, startkey: string, endkey: string): set<string>
  {
    set id | id in objects && InView(id, startkey, endkey)
  }

  /** The ids the rows carry. */
  function RowIds(rows: seq<Row>): set<string>
  {
    if rows == [] then {} else RowIds(rows[..|rows| - 1]) + {rows[|rows| - 1].id}
  }

  /** `rows.map(row => row.id)`. */
  function Ids(rows: seq<Row>): (ids: seq<string>)
    ensures |ids| == |rows| && forall i :: 0 <= i < |rows| ==> ids[i] == rows[i].id
  {
    seq(|rows|, i requires 0 <= i < |rows| => rows[i].id)
  }

  function Elements(s: seq<string>): set<string>
  {
    set x | x in s
  }

  lemma {:induction false} IdsElements(rows: seq<Row>)
    ensures Elements(Ids(rows)) == RowIds(rows)
  {
    if rows != [] {
      var init := rows[..|rows| - 1];
      IdsElements(init);
      assert Ids(rows) == Ids(init) + [rows[|rows| - 1].id];
    }
  }

  lemma RowIdsAppend(rows: seq<Row>, r: Row)
    ensures RowIds(rows + [r]) == RowIds(rows) + {r.id}
  {
    assert (rows + [r])[..|rows|] == rows;
  }

  /** `ids.filter(id => id !== x)`: the same ids in the same order, without `x`. */
  function Without(ids: seq<string>, x: string): (r: seq<string>)
    ensures Elements(r) == Elements(ids) - {x}
    ensures |r| <= |ids|
  {
    if ids == [] then []
    else
      var rest := Without(ids[1..], x);
      assert Elements(ids) == {ids[0]} + Elements(ids[1..]) by {
        assert ids == [ids[0]] + ids[1..];
      }
      assert Elements([ids[0]] + rest) == {ids[0]} + Elements(rest);
      if ids[0] == x then rest else [ids[0]] + rest
  }

  // ---------------------------------------------------------------------------
  // The store
  // ---------------------------------------------------------------------------

  /** The namespace a store created without one gets. */
  const DefaultNamespace: string := "ictb-time.0"

  class ObjectTree {
    const namespace: string
    var objects: map<string, TreeObject>

    /** `namespace || 'ictb-time.0'`: a missing or empty namespace is replaced by the default. */
    constructor (namespace: Option<string>)
      ensures namespace.Some? && namespace.value != [] ==> this.namespace == namespace.value
      ensures namespace.None? || namespace.value == [] ==> this.namespace == DefaultNamespace
      ensures objects == map[]
    {
      this.namespace := if namespace.Some? && namespace.value != [] then namespace.value else DefaultNamespace;
      objects := map[];
    }

    /** `setObjectAsync(id, obj)`: inserts or overwrites one id. */
    method SetObject(id: string, obj: TreeObject)
      modifies this
      ensures objects == old(objects)[id := obj]
    {
      objects := objects[id := obj];
    }

    /** `delObjectAsync(id)`: removes one id, if present. */
    method DelObject(id: string)
      modifies this
      ensures objects == old(objects) - {id}
    {
      objects := objects - {id};
    }

    /**
     * `getObjectViewAsync(_, _, {startkey, endkey})`: one row per stored id with
     * `startkey <= id <= endkey`, carrying the stored object; each id once.
     */
    method GetObjectView(startkey: string, endkey: string) returns (rows: seq<Row>)
      ensures RowIds(rows) == ViewIds(objects, startkey, endkey)
      ensures forall r :: r in rows ==> r.id in objects && objects[r.id] == r.obj
      ensures forall i, j :: 0 <= i < j < |rows| ==> rows[i].id != rows[j].id
    {
      rows := [];
      var pending := objects.Keys;
      while pending != {}
        invariant Scanned(objects, startkey, endkey, rows, pending)
        decreases |pending|
      {
        var id :| id in pending;
        ScanStep(objects, startkey, endkey, rows, pending, id);
        if InView(id, startkey, endkey) {
          rows := rows + [Row(id, objects[id])];
        }
        pending := pending - {id};
      }
    }
  }

  /**
   * The loop invariant of `GetObjectView`: the rows list the in-view ids
   * visited so far, each once and with its object, and the ids still to visit.
   */
  predicate Scanned(objects: map<string, TreeObject>, startkey: string, endkey: string, rows: seq<Row>, pending: set<string>)
  {
    && pending <= objects.Keys
    && RowIds(rows) == ViewIds(objects, startkey, endkey) - pending
    && (forall r :: r in rows ==> r.id in objects && objects[r.id] == r.obj && r.id !in pending)
    && (forall i, j :: 0 <= i < j < |rows| ==> rows[i].id != rows[j].id)
  }

  /** Visiting one more id keeps the invariant of `GetObjectView`. */
  lemma ScanStep(objects: map<string, TreeObject>, startkey: string, endkey: string, rows: seq<Row>, pending: set<string>, id: string)
    requires Scanned(objects, startkey, endkey, rows, pending) && id in pending
    ensures var next := if InView(id, startkey, endkey) then rows + [Row(id, objects[id])] else rows;
      Scanned(objects, startkey, endkey, next, pending - {id})
  {
    if InView(id, startkey, endkey) {
      RowIdsAppend(rows, Row(id, objects[id]));
    }
  }

  // ---------------------------------------------------------------------------
  // Sections and reconciliation
  // ---------------------------------------------------------------------------

  /** The `香` that closes the view of a section. */
  const SectionEnd: char := '\U{9999}'

  /** The ids of the view from `prefix` to `prefix + '香'`. */
  function SectionIds(objects: map<string, TreeObject>, prefix: string): set<string>
  {
    ViewIds(objects, prefix, prefix + [SectionEnd])
  }

  predicate StartsWith(id: string, prefix: string)
  {
    |prefix| <= |id| && id[..|prefix|] == prefix
  }

  /** Every id the section view can list starts with the prefix. */
  lemma InSectionStartsWith(id: string, prefix: string)
    ensures InView(id, prefix, prefix + [SectionEnd]) ==> StartsWith(id, prefix)
  {
    if InView(id, prefix, prefix + [SectionEnd]) {
      BetweenPrefixAndExtension(prefix, [SectionEnd], id);
    }
  }

  /** An id that starts with one of two apart prefixes does not start with the other. */
  lemma ApartExclusive(id: string, p1: string, p2: string, i: nat)
    requires Apart(p1, p2, i) && StartsWith(id, p1)
    ensures !StartsWith(id, p2)
  {
    assert id[i] == id[..|p1|][i] == p1[i];
  }

  /** `prefix + key` is in the section view when the key sorts no higher than `'香'`. */
  lemma KeyInSection(prefix: string, key: string)
    requires LexLe(key, [SectionEnd])
    ensures InView(prefix + key, prefix, prefix + [SectionEnd])
  {
    LexLePrefix(prefix, key);
    LexLeCommonPrefix(prefix, key, [SectionEnd]);
  }

  /** The channels of a configuration placed under `prefix`: id `prefix + key` holds `channels[key]`. */
  function Placed(prefix: string, channels: map<string, TreeObject>): (m: map<string, TreeObject>)
  {
    map id | id in (set k | k in channels :: prefix + k) && |prefix| <= |id| && id[|prefix|..] in channels
      :: channels[id[|prefix|..]]
  }

  lemma AfterPrefix(prefix: string, key: string)
    ensures (prefix + key)[|prefix|..] == key && (prefix + key)[..|prefix|] == prefix
  {
  }

  /** The placed ids are exactly `prefix + key` for the configured keys, each holding its key's channel. */
  lemma PlacedAt(prefix: string, channels: map<string, TreeObject>)
    ensures forall k :: k in channels ==> prefix + k in Placed(prefix, channels) && Placed(prefix, channels)[prefix + k] == channels[k]
    ensures forall id :: id in Placed(prefix, channels) ==>
      StartsWith(id, prefix) && id[|prefix|..] in channels && id == prefix + id[|prefix|..]
  {
    forall k | k in channels
      ensures prefix + k in Placed(prefix, channels) && Placed(prefix, channels)[prefix + k] == channels[k]
    {
      AfterPrefix(prefix, k);
    }
    forall id | id in Placed(prefix, channels)
      ensures StartsWith(id, prefix) && id[|prefix|..] in channels && id == prefix + id[|prefix|..]
    {
      var k :| k in channels && id == prefix + k;
      AfterPrefix(prefix, k);
    }
  }

  /** Placing one more key adds exactly its id. */
  lemma PlacedUpdate(prefix: string, channels: map<string, TreeObject>, k: string, obj: TreeObject)
    ensures Placed(prefix, channels[k := obj]) == Placed(prefix, channels)[prefix + k := obj]
  {
    var a, b := Placed(prefix, channels[k := obj]), Placed(prefix, channels)[prefix + k := obj];
    PlacedAt(prefix, channels[k := obj]);
    PlacedAt(prefix, channels);
    AfterPrefix(prefix, k);
    forall id | id in a ensures id in b && a[id] == b[id]
    {
      if id != prefix + k {
        assert id[|prefix|..] != k;
      }
    }
    forall id | id in b ensures id in a
    {
    }
  }

  /**
   * What `updateCustomerObjects`/`updateEmployeeObjects` leave behind: the
   * tree with the desired channels upserted, minus the ids the section view
   * listed beforehand that are not desired.
   */
  function Reconciled(objects: map<string, TreeObject>, prefix: string, desired: map<string, TreeObject>): map<string, TreeObject>
  {
    (objects + desired) - (SectionIds(objects, prefix) - desired.Keys)
  }

  /**
   * After reconciliation every desired id holds its desired channel, and the
   * section view lists no id that is not desired.
   */
  lemma ReconciledSection(objects: map<string, TreeObject>, prefix: string, desired: map<string, TreeObject>)
    ensures var r := Reconciled(objects, prefix, desired);
      && (forall id :: id in desired ==> id in r && r[id] == desired[id])
      && SectionIds(r, prefix) <= desired.Keys
  {
  }

  /** Reconciliation creates no id but the desired ones. */
  lemma ReconciledKeys(objects: map<string, TreeObject>, prefix: string, desired: map<string, TreeObject>)
    ensures Reconciled(objects, prefix, desired).Keys <= objects.Keys + desired.Keys
  {
  }

  /** Ids that are neither in the section nor desired keep their object, or their absence. */
  lemma ReconciledOutside(objects: map<string, TreeObject>, prefix: string, desired: map<string, TreeObject>, id: string)
    requires id !in desired && !InView(id, prefix, prefix + [SectionEnd])
    ensures var r := Reconciled(objects, prefix, desired);
      (id in r <==> id in objects) && (id in objects ==> r[id] == objects[id])
  {
  }

  /** When every desired id lies in the section, the section view afterwards lists exactly the desired ids. */
  lemma ReconciledSectionExact(objects: map<string, TreeObject>, prefix: string, desired: map<string, TreeObject>)
    requires forall id :: id in desired ==> InView(id, prefix, prefix + [SectionEnd])
    ensures SectionIds(Reconciled(objects, prefix, desired), prefix) == desired.Keys
  {
    ReconciledSection(objects, prefix, desired);
  }

  /** A tree already reconciled for a section: it holds the desired channels and nothing else in the section. */
  predicate Settled(objects: map<string, TreeObject>, prefix: string, desired: map<string, TreeObject>)
  {
    && (forall id :: id in desired ==> id in objects && objects[id] == desired[id])
    && SectionIds(objects, prefix) <= desired.Keys
  }

  /** Reconciling a settled tree changes nothing. */
  lemma SettledFixpoint(objects: map<string, TreeObject>, prefix: string, desired: map<string, TreeObject>)
    requires Settled(objects, prefix, desired)
    ensures Reconciled(objects, prefix, desired) == objects
  {
    assert objects + desired == objects;
    assert SectionIds(objects, prefix) - desired.Keys == {};
  }

  /** Reconciling the same section with the same configuration twice gives the tree of once. */
  lemma ReconciledIdempotent(objects: map<string, TreeObject>, prefix: string, desired: map<string, TreeObject>)
    ensures Reconciled(Reconciled(objects, prefix, desired), prefix, desired) == Reconciled(objects, prefix, desired)
  {
    ReconciledSection(objects, prefix, desired);
    SettledFixpoint(Reconciled(objects, prefix, desired), prefix, desired);
  }

  /** Two prefixes that differ at position `i`: no id starts with both. */
  predicate Apart(p1: string, p2: string, i: nat)
  {
    i < |p1| && i < |p2| && p1[i] != p2[i]
  }

  /**
   * Reconciling one section keeps another section settled when the two
   * prefixes are apart and each configuration's ids start with its own prefix.
   */
  lemma ReconcileKeepsOtherSettled(objects: map<string, TreeObject>, p1: string, d1: map<string, TreeObject>,
                                   p2: string, d2: map<string, TreeObject>, i: nat)
    requires Settled(objects, p1, d1) && Apart(p1, p2, i)
    requires forall id :: id in d1 ==> StartsWith(id, p1)
    requires forall id :: id in d2 ==> StartsWith(id, p2)
    ensures Settled(Reconciled(objects, p2, d2), p1, d1)
  {
    var r := Reconciled(objects, p2, d2);
    forall id | id in d1 ensures id in r && r[id] == d1[id]
    {
      ApartExclusive(id, p1, p2, i);
      InSectionStartsWith(id, p2);
    }
    forall id | id in SectionIds(r, p1) ensures id in d1
    {
      InSectionStartsWith(id, p1);
      ApartExclusive(id, p1, p2, i);
      assert id !in d2;
      assert id in SectionIds(objects, p1);
    }
  }

  /**
   * Reconciling section `p1` and then section `p2` a second time, with the
   * configuration unchanged, leaves the tree as the first round left it.
   */
  lemma ReconcileBothIdempotent(objects: map<string, TreeObject>, p1: string, d1: map<string, TreeObject>,
                                p2: string, d2: map<string, TreeObject>, i: nat)
    requires Apart(p1, p2, i)
    requires forall id :: id in d1 ==> StartsWith(id, p1)
    requires forall id :: id in d2 ==> StartsWith(id, p2)
    ensures var once := Reconciled(Reconciled(objects, p1, d1), p2, d2);
      Reconciled(Reconciled(once, p1, d1), p2, d2) == once
  {
    var r1 := Reconciled(objects, p1, d1);
    var once := Reconciled(r1, p2, d2);
    ReconciledSection(objects, p1, d1);
    ReconciledSection(r1, p2, d2);
    ReconcileKeepsOtherSettled(r1, p1, d1, p2, d2, i);
    SettledFixpoint(once, p1, d1);
    SettledFixpoint(once, p2, d2);
  }
}
