/** The insertion-ordered dictionaries keyed by member name that the settlement code builds
    (the share table, advances per member, gross shares, payouts), as association lists. */
module Tables {

  datatype Entry = Entry(name: string, value: real)

  type Table = seq<Entry>

  /** Dictionary keys are distinct. */
  predicate Distinct(t: Table) {
    forall i, j :: 0 <= i < j < |t| ==> t[i].name != t[j].name
  }

  predicate Has(t: Table, name: string) {
    exists i :: 0 <= i < |t| && t[i].name == name
  }

  /** The position of name in t, or -1 when it is absent. */
  function IndexOf(t: Table, name: string): (k: int)
    ensures -1 <= k < |t|
    ensures k >= 0 ==> t[k].name == name && forall i :: 0 <= i < k ==> t[i].name != name
    ensures k == -1 <==> !Has(t, name)
  {
    if |t| == 0 then -1
    else if t[0].name == name then 0
    else
      var k := IndexOf(t[1..], name);
      assert !Has(t[1..], name) ==> !Has(t, name) by {
        if Has(t, name) {
          var i :| 0 <= i < |t| && t[i].name == name;
          assert i > 0 && t[1..][i - 1].name == name;
        }
      }
      if k == -1 then -1 else k + 1
  }

  /** dict.get(name, 0). */
  function Get(t: Table, name: string): (v: real)
    ensures !Has(t, name) ==> v == 0.0
    ensures Has(t, name) ==> v == t[IndexOf(t, name)].value
  {
    var k := IndexOf(t, name);
    if k >= 0 then t[k].value else 0.0
  }

  /** With distinct keys, looking up the key at position i gives the value at position i. */
  lemma {:induction false} GetAt(t: Table, i: int)
    requires Distinct(t) && 0 <= i < |t|
    ensures IndexOf(t, t[i].name) == i
    ensures Get(t, t[i].name) == t[i].value
  {
    var k := IndexOf(t, t[i].name);
    assert k >= 0 && t[k].name == t[i].name;
  }

  function Names(t: Table): (ns: seq<string>)
    ensures |ns| == |t|
    ensures forall i :: 0 <= i < |t| ==> ns[i] == t[i].name
  {
    if |t| == 0 then [] else Names(t[..|t| - 1]) + [t[|t| - 1].name]
  }

  /** sum(d.values()), added in key order. */
  function Total(t: Table): real
  {
    if |t| == 0 then 0.0 else Total(t[..|t| - 1]) + t[|t| - 1].value
  }

  /** Adding x to the value at one position adds x to the total. */
  lemma {:induction false} TotalUpdate(t: Table, k: int, x: real)
    requires 0 <= k < |t|
    ensures Total(t[k := Entry(t[k].name, t[k].value + x)]) == Total(t) + x
    decreases |t|
  {
    var u := t[k := Entry(t[k].name, t[k].value + x)];
    var n := |t| - 1;
    assert u[..n] == if k == n then t[..n] else t[..n][k := Entry(t[k].name, t[k].value + x)];
    if k < n {
      TotalUpdate(t[..n], k, x);
    }
  }

  /** Total(t[..n+1]) adds the value at position n to Total(t[..n]). */
  lemma TotalPrefix(t: Table, n: int)
    requires 0 <= n < |t|
    ensures Total(t[..n + 1]) == Total(t[..n]) + t[n].value
  {
    assert t[..n + 1][..n] == t[..n];
  }

  lemma HasAppend(t: Table, e: Entry, name: string)
    ensures Has(t + [e], name) <==> Has(t, name) || e.name == name
  {
    if Has(t, name) {
      var i :| 0 <= i < |t| && t[i].name == name;
      assert (t + [e])[i].name == name;
    }
    if e.name == name {
      assert (t + [e])[|t|].name == name;
    }
    if Has(t + [e], name) {
      var i :| 0 <= i < |t + [e]| && (t + [e])[i].name == name;
      if i < |t| {
        assert t[i].name == name;
      }
    }
  }

  /** Appending a new key: lookups of the other keys are unaffected. */
  lemma GetAppend(t: Table, e: Entry, name: string)
    requires !Has(t, e.name)
    ensures Distinct(t) ==> Distinct(t + [e])
    ensures Get(t + [e], name) == if name == e.name then e.value else Get(t, name)
  {
    HasAppend(t, e, name);
    var u := t + [e];
    if Distinct(t) {
      forall i, j | 0 <= i < j < |u| ensures u[i].name != u[j].name {
        if j == |t| {
          assert t[i].name != e.name;
        }
      }
    }
    if name == e.name {
      assert IndexOf(u, name) == |t|;
    } else if Has(t, name) {
      var k := IndexOf(t, name);
      assert u[k].name == name;
      assert IndexOf(u, name) == k;
    }
  }

  /** Replacing the value at one position: only that key's lookup changes. */
  lemma GetUpdate(t: Table, k: int, v: real, name: string)
    requires Distinct(t) && 0 <= k < |t|
    ensures Distinct(t[k := Entry(t[k].name, v)])
    ensures Get(t[k := Entry(t[k].name, v)], name) == if name == t[k].name then v else Get(t, name)
  {
    var u := t[k := Entry(t[k].name, v)];
    assert forall i :: 0 <= i < |t| ==> u[i].name == t[i].name;
    assert Has(u, name) <==> Has(t, name) by {
      if Has(u, name) {
        var i :| 0 <= i < |u| && u[i].name == name;
        assert t[i].name == name;
      }
      if Has(t, name) {
        var i :| 0 <= i < |t| && t[i].name == name;
        assert u[i].name == name;
      }
    }
    if Has(t, name) {
      var j := IndexOf(t, name);
      assert u[j].name == name;
      assert IndexOf(u, name) == j;
      if name == t[k].name {
        GetAt(t, k);
      } else {
        assert j != k;
      }
    }
  }

  /** d[name] += x on a dictionary defaulting to 0: the value of an existing key grows in place,
      a new key is appended. */
  function AddTo(t: Table, name: string, x: real): Table {
    var k := IndexOf(t, name);
    if k >= 0 then t[k := Entry(name, t[k].value + x)] else t + [Entry(name, x)]
  }

  /** AddTo keeps keys distinct, adds name to the keys, adds x to name's value and to the total,
      and leaves every other key's value alone. */
  lemma AddToFacts(t: Table, name: string, x: real)
    requires Distinct(t)
    ensures Distinct(AddTo(t, name, x))
    ensures forall n :: Has(AddTo(t, name, x), n) <==> Has(t, n) || n == name
    ensures forall n :: Get(AddTo(t, name, x), n) == Get(t, n) + (if n == name then x else 0.0)
    ensures Total(AddTo(t, name, x)) == Total(t) + x
  {
    if IndexOf(t, name) >= 0 {
      AddToExisting(t, name, x);
    } else {
      AddToNew(t, name, x);
    }
  }

  lemma AddToExisting(t: Table, name: string, x: real)
    requires Distinct(t) && IndexOf(t, name) >= 0
    ensures Distinct(AddTo(t, name, x))
    ensures forall n :: Has(AddTo(t, name, x), n) <==> Has(t, n)
    ensures forall n :: Get(AddTo(t, name, x), n) == Get(t, n) + (if n == name then x else 0.0)
    ensures Total(AddTo(t, name, x)) == Total(t) + x
  {
    var k := IndexOf(t, name);
    var u := t[k := Entry(name, t[k].value + x)];
    assert AddTo(t, name, x) == u;
    assert Total(u) == Total(t) + x by {
      TotalUpdate(t, k, x);
    }
    assert Distinct(u) by {
      GetUpdate(t, k, t[k].value + x, name);
    }
    assert forall n :: Get(u, n) == Get(t, n) + (if n == name then x else 0.0) by {
      GetAt(t, k);
      forall n ensures Get(u, n) == Get(t, n) + (if n == name then x else 0.0) {
        GetUpdate(t, k, t[k].value + x, n);
      }
    }
    assert forall n :: Has(u, n) <==> Has(t, n) by {
      forall n ensures Has(u, n) <==> Has(t, n) {
        if Has(t, n) {
          var j :| 0 <= j < |t| && t[j].name == n;
          assert u[j].name == n;
        }
        if Has(u, n) {
          var j :| 0 <= j < |u| && u[j].name == n;
          assert t[j].name == n;
        }
      }
    }
  }

  lemma AddToNew(t: Table, name: string, x: real)
    requires Distinct(t) && IndexOf(t, name) < 0
    ensures Distinct(AddTo(t, name, x))
    ensures forall n :: Has(AddTo(t, name, x), n) <==> Has(t, n) || n == name
    ensures forall n :: Get(AddTo(t, name, x), n) == Get(t, n) + (if n == name then x else 0.0)
    ensures Total(AddTo(t, name, x)) == Total(t) + x
  {
    var u := t + [Entry(name, x)];
    assert AddTo(t, name, x) == u;
    assert u[..|t|] == t;
    forall n ensures Get(u, n) == Get(t, n) + (if n == name then x else 0.0) && (Has(u, n) <==> Has(t, n) || n == name) {
      GetAppend(t, Entry(name, x), n);
      HasAppend(t, Entry(name, x), n);
    }
  }
}
