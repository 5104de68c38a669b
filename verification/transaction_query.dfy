/** The query string `getTransactions` builds (`src/api.js`), kept as the
    ordered list of key/value pairs it appends; percent-encoding is not
    part of this model. */
module TransactionQuery {
  import opened Wrappers
  import opened Text

  /** The parameters object; a property the caller leaves out is None. */
  datatype TxParams = TxParams(
    page: Option<int>,
    size: Option<int>,
    startDate: Option<string>,
    endDate: Option<string>,
    txType: Option<string>,
    accountId: Option<int>)

  /** The six keys the query can hold. */
  datatype Key = Page | Size | StartDate | EndDate | Type | AccountId

  /** The name each key has in the query string. */
  function KeyName(k: Key): string {
    match k
    case Page => "page"
    case Size => "size"
    case StartDate => "startDate"
    case EndDate => "endDate"
    case Type => "type"
    case AccountId => "accountId"
  }

  /** The position of each key in the order the source appends them. */
  function KeyRank(k: Key): nat {
    match k
    case Page => 0
    case Size => 1
    case StartDate => 2
    case EndDate => 3
    case Type => 4
    case AccountId => 5
  }

  type Query = seq<(Key, string)>

  /** The value of the first pair with the key, or None. */
  function Lookup(q: Query, key: Key): (r: Option<string>)
    ensures r.None? <==> forall i :: 0 <= i < |q| ==> q[i].0 != key
    ensures r.Some? ==> exists i :: 0 <= i < |q| && q[i] == (key, r.value)
  {
    if q == [] then None
    else if q[0].0 == key then Some(q[0].1)
    else
      var r := Lookup(q[1..], key);
      if r.Some? then
        ghost var i :| 0 <= i < |q[1..]| && q[1..][i] == (key, r.value);
        assert q[i + 1] == (key, r.value);
        r
      else r
  }

  /** Appending a pair leaves every key already present as it was and
      makes a new key look up to the appended value. */
  lemma {:induction false} LookupAppend(q: Query, k: Key, v: string, key: Key)
    ensures Lookup(q + [(k, v)], key) ==
      if Lookup(q, key).Some? then Lookup(q, key) else if k == key then Some(v) else None
  {
    if q != [] {
      assert (q + [(k, v)])[1..] == q[1..] + [(k, v)];
      LookupAppend(q[1..], k, v, key);
    }
  }

  /** JavaScript truthiness of an optional string or number. */
  predicate StringGiven(v: Option<string>) { v.Some? && v.value != "" }
  predicate NumberGiven(v: Option<int>) { v.Some? && v.value != 0 }

  /** Keys strictly in the order of appending, so none twice. */
  predicate Ordered(q: Query) {
    forall i, j :: 0 <= i < j < |q| ==> KeyRank(q[i].0) < KeyRank(q[j].0)
  }

  /** Appending a key that ranks after all present keeps the order. */
  lemma AppendOrdered(q: Query, key: Key, value: string)
    requires Ordered(q)
    requires forall i :: 0 <= i < |q| ==> KeyRank(q[i].0) < KeyRank(key)
    ensures Ordered(q + [(key, value)])
    ensures forall i :: 0 <= i < |q| + 1 ==> KeyRank((q + [(key, value)])[i].0) <= KeyRank(key)
    ensures (q + [(key, value)])[..|q|] == q
  {
    var r := q + [(key, value)];
    assert r[..|q|] == q;
    assert forall i :: 0 <= i < |q| ==> r[i] == q[i];
    forall i, j | 0 <= i < j < |r| ensures KeyRank(r[i].0) < KeyRank(r[j].0) {
      assert r[i] == q[i];
      if j < |q| {
        assert r[j] == q[j];
      }
    }
  }

  /** Appending a key absent so far: it looks up to the new value, and
      every other key as before. */
  lemma AppendLookups(q: Query, key: Key, value: string)
    requires forall i :: 0 <= i < |q| ==> q[i].0 != key
    ensures Lookup(q + [(key, value)], key) == Some(value)
    ensures forall k :: k != key ==> Lookup(q + [(key, value)], k) == Lookup(q, k)
  {
    LookupAppend(q, key, value, key);
    forall k | k != key ensures Lookup(q + [(key, value)], k) == Lookup(q, k) {
      LookupAppend(q, key, value, k);
    }
  }

  /** `if (value) queryParams.append(key, value)`, for a key that ranks
      after every key already present. */
  method AppendIf(q: Query, given: bool, key: Key, value: string) returns (r: Query)
    requires Ordered(q)
    requires forall i :: 0 <= i < |q| ==> KeyRank(q[i].0) < KeyRank(key)
    ensures Ordered(r)
    ensures forall i :: 0 <= i < |r| ==> KeyRank(r[i].0) <= KeyRank(key)
    ensures |q| <= |r| && r[..|q|] == q
    ensures Lookup(r, key) == if given then Some(value) else None
    ensures forall k :: k != key ==> Lookup(r, k) == Lookup(q, k)
  {
    if given {
      AppendOrdered(q, key, value);
      AppendLookups(q, key, value);
      r := q + [(key, value)];
    } else {
      r := q;
    }
  }

  /** `getTransactions(params)` up to the request: `page` and `size` (with
      their defaults 0 and 20) always come first, then `startDate`,
      `endDate`, `type` and `accountId`, each only when it is truthy. */
  method GetTransactionsQuery(p: TxParams) returns (q: Query)
    ensures |q| >= 2
    ensures q[0] == (Page, IntToString(p.page.GetOr(0)))
    ensures q[1] == (Size, IntToString(p.size.GetOr(20)))
    ensures Lookup(q, StartDate) == (if StringGiven(p.startDate) then p.startDate else None)
    ensures Lookup(q, EndDate) == (if StringGiven(p.endDate) then p.endDate else None)
    ensures Lookup(q, Type) == (if StringGiven(p.txType) then p.txType else None)
    ensures Lookup(q, AccountId) == (if NumberGiven(p.accountId) then Some(IntToString(p.accountId.value)) else None)
    ensures Ordered(q)
  {
    var base := [(Page, IntToString(p.page.GetOr(0))), (Size, IntToString(p.size.GetOr(20)))];
    var q1 := AppendIf(base, StringGiven(p.startDate), StartDate, p.startDate.GetOr(""));
    var q2 := AppendIf(q1, StringGiven(p.endDate), EndDate, p.endDate.GetOr(""));
    var q3 := AppendIf(q2, StringGiven(p.txType), Type, p.txType.GetOr(""));
    q := AppendIf(q3, NumberGiven(p.accountId), AccountId, IntToString(p.accountId.GetOr(0)));
    assert q[0] == q3[0] == q2[0] == q1[0] == base[0];
    assert q[1] == q3[1] == q2[1] == q1[1] == base[1];
  }
}
