/** The Form collection as the routes see it: records filed under their
    identifiers, plus the source of fresh identifiers. */
module FormStore {
  import opened FormModel

  /** The collection. `nextId` stands for the identifier generator: it is
      above every identifier handed out so far. */
  datatype Store = Store(forms: map<Id, Form>, nextId: Id)

  /** The collection before anything is submitted. */
  const EmptyStore := Store(map[], 0)

  /** Every record is filed under its own identifier, that identifier was
      handed out already, and the record satisfies the schema. */
  predicate Valid(st: Store) {
    forall k :: k in st.forms ==> k < st.nextId && st.forms[k].id == k && WellFormed(st.forms[k])
  }

  /** The stored records, each exactly once. */
  ghost predicate ListsExactly(r: seq<Form>, m: map<Id, Form>) {
    && |r| == |m|
    && forall f :: f in r <==> f in m.Values
  }

  /** The keys of `m` in the interval [lo, hi). */
  ghost function KeysIn(m: map<Id, Form>, lo: nat, hi: nat): set<Id> {
    set k | k in m && lo <= k < hi
  }

  /** The records whose identifiers lie in [lo, hi), by increasing identifier. */
  function Scan(m: map<Id, Form>, lo: nat, hi: nat): (r: seq<Form>)
    requires forall k :: k in m ==> m[k].id == k
    ensures forall i :: 0 <= i < |r| ==> r[i].id in m && m[r[i].id] == r[i] && lo <= r[i].id < hi
    ensures forall k :: k in m && lo <= k < hi ==> m[k] in r
    ensures forall i, j :: 0 <= i < j < |r| ==> r[i].id < r[j].id
    decreases hi - lo
  {
    if lo >= hi then []
    else if lo in m then [m[lo]] + Scan(m, lo + 1, hi)
    else Scan(m, lo + 1, hi)
  }

  /** A scan holds one record per key in its interval. */
  lemma {:induction false} ScanLength(m: map<Id, Form>, lo: nat, hi: nat)
    requires forall k :: k in m ==> m[k].id == k
    ensures |Scan(m, lo, hi)| == |KeysIn(m, lo, hi)|
    decreases hi - lo
  {
    if lo >= hi {
      assert KeysIn(m, lo, hi) == {};
    } else {
      ScanLength(m, lo + 1, hi);
      if lo in m {
        assert KeysIn(m, lo, hi) == {lo} + KeysIn(m, lo + 1, hi);
      } else {
        assert KeysIn(m, lo, hi) == KeysIn(m, lo + 1, hi);
      }
    }
  }

  /** Every stored record, each once, in identifier order: the result of an
      unsorted `find()`. */
  function Records(st: Store): (r: seq<Form>)
    requires Valid(st)
    ensures ListsExactly(r, st.forms)
    ensures forall i :: 0 <= i < |r| ==> r[i].id in st.forms && st.forms[r[i].id] == r[i]
  {
    assert KeysIn(st.forms, 0, st.nextId) == st.forms.Keys;
    ScanLength(st.forms, 0, st.nextId);
    Scan(st.forms, 0, st.nextId)
  }

  /** The records whose `email` equals `e` exactly, as the query
      `find({ email: e })` selects them. */
  function Matching(st: Store, e: string): (r: Store)
    ensures r.nextId == st.nextId
    ensures forall k :: k in r.forms <==> k in st.forms && st.forms[k].email == e
    ensures forall k :: k in r.forms ==> r.forms[k] == st.forms[k]
    ensures Valid(st) ==> Valid(r)
  {
    Store(map k | k in st.forms && st.forms[k].email == e :: st.forms[k], st.nextId)
  }
}
