/** Open addressing with linear probing, as used by the duplicate table of the payload
    parser and by the route table of a subscription. */
module ProbeTable {

  datatype Cell<K> = Vacant | Held(key: K)

  /** The slot d probes after slot h in a table of n slots. */
  function At(h: nat, d: nat, n: nat): (j: nat)
    requires h < n && d < n
    ensures j < n
  {
    if h + d < n then h + d else h + d - n
  }

  /** How many probes slot j is after slot h. */
  function Distance(h: nat, j: nat, n: nat): (d: nat)
    requires h < n && j < n
    ensures d < n && At(h, d, n) == j
  {
    if h <= j then j - h else j + n - h
  }

  /** Every key is reached from its home slot over held slots. */
  ghost predicate Chained<K(!new)>(cells: seq<Cell<K>>, home: K -> nat) {
    && (forall k :: home(k) < |cells|)
    && (forall j, e :: 0 <= j < |cells| && cells[j].Held? && 0 <= e < Distance(home(cells[j].key), j, |cells|)
          ==> cells[At(home(cells[j].key), e, |cells|)].Held?)
  }

  ghost predicate Contains<K(!new)>(cells: seq<Cell<K>>, key: K) {
    exists j :: 0 <= j < |cells| && cells[j] == Held(key)
  }

  /** The first d probes for key find other keys. */
  ghost predicate Passed<K(!new)>(cells: seq<Cell<K>>, home: K -> nat, key: K, d: nat)
    requires home(key) < |cells| && d <= |cells|
  {
    forall e :: 0 <= e < d ==> cells[At(home(key), e, |cells|)].Held? && cells[At(home(key), e, |cells|)].key != key
  }

  /** A vacant slot ends the search: the key is not in the table. */
  lemma VacantMeansAbsent<K(!new)>(cells: seq<Cell<K>>, home: K -> nat, key: K, d: nat)
    requires Chained(cells, home) && d < |cells| && Passed(cells, home, key, d)
    requires cells[At(home(key), d, |cells|)].Vacant?
    ensures !Contains(cells, key)
  {
    forall j | 0 <= j < |cells| ensures cells[j] != Held(key) {
      var dj := Distance(home(key), j, |cells|);
      assert dj < d ==> cells[At(home(key), dj, |cells|)].key != key;
    }
  }

  /** Storing the key there keeps every chain. */
  lemma InsertKeepsChains<K(!new)>(cells: seq<Cell<K>>, home: K -> nat, key: K, d: nat)
    requires Chained(cells, home) && d < |cells| && Passed(cells, home, key, d)
    requires cells[At(home(key), d, |cells|)].Vacant?
    ensures Chained(cells[At(home(key), d, |cells|) := Held(key)], home)
  {
    var n, at := |cells|, At(home(key), d, |cells|);
    var after := cells[at := Held(key)];
    forall j, e | 0 <= j < n && after[j].Held? && 0 <= e < Distance(home(after[j].key), j, n)
      ensures after[At(home(after[j].key), e, n)].Held?
    {
      if j == at {
        assert Distance(home(key), at, n) == d;
      }
    }
  }

  /** After a full round every slot has been seen. */
  lemma FullRoundMeansFull<K(!new)>(cells: seq<Cell<K>>, home: K -> nat, key: K)
    requires home(key) < |cells| && Passed(cells, home, key, |cells|)
    ensures !Contains(cells, key) && forall j :: 0 <= j < |cells| ==> cells[j].Held?
  {
    forall j | 0 <= j < |cells| ensures cells[j].Held? && cells[j].key != key {
      assert At(home(key), Distance(home(key), j, |cells|), |cells|) == j;
    }
  }

  /** The number of held slots. */
  function Count<K>(cells: seq<Cell<K>>): nat {
    if cells == [] then 0 else Count(cells[..|cells| - 1]) + if cells[|cells| - 1].Held? then 1 else 0
  }

  lemma {:induction false} CountInsert<K>(cells: seq<Cell<K>>, j: nat, key: K)
    requires j < |cells| && cells[j].Vacant?
    ensures Count(cells[j := Held(key)]) == Count(cells) + 1
    decreases |cells|
  {
    var n := |cells| - 1;
    if j == n {
      assert cells[j := Held(key)][..n] == cells[..n];
    } else {
      CountInsert(cells[..n], j, key);
      assert cells[j := Held(key)][..n] == cells[..n][j := Held(key)];
    }
  }

  lemma {:induction false} CountFull<K>(cells: seq<Cell<K>>)
    requires forall j :: 0 <= j < |cells| ==> cells[j].Held?
    ensures Count(cells) == |cells|
    decreases |cells|
  {
    if cells != [] {
      CountFull(cells[..|cells| - 1]);
    }
  }

  lemma {:induction false} CountEmpty<K>(cells: seq<Cell<K>>)
    requires forall j :: 0 <= j < |cells| ==> cells[j].Vacant?
    ensures Count(cells) == 0
    decreases |cells|
  {
    if cells != [] {
      CountEmpty(cells[..|cells| - 1]);
    }
  }

  lemma {:induction false} CountBound<K>(cells: seq<Cell<K>>)
    ensures Count(cells) <= |cells|
    decreases |cells|
  {
    if cells != [] {
      CountBound(cells[..|cells| - 1]);
    }
  }
}
