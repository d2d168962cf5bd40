/** The chained hash table that remembers which dynamic imports already have a slot. */
module SymbolSpec {
  import opened Machine
  import opened Hashes

  datatype Import = Import(name: Name, p: nat)

  function Slot(name: Name, nb: nat): (b: nat)
    requires nb > 0
    ensures b < nb
  {
    ElfHash(name) % nb
  }

  /** The imports that hash to bucket b, oldest first. */
  function InBucket(log: seq<Import>, nb: nat, b: nat): (r: seq<Import>)
    requires nb > 0
  {
    if log == [] then []
    else (if Slot(log[0].name, nb) == b then [log[0]] else []) + InBucket(log[1..], nb, b)
  }

  /** Linear search: the value first recorded under the name, 0 if there is none. */
  function FirstValue(log: seq<Import>, name: Name): nat {
    if log == [] then 0 else if log[0].name == name then log[0].p else FirstValue(log[1..], name)
  }

  lemma {:induction false} InBucketAppended(log: seq<Import>, e: Import, nb: nat, b: nat)
    requires nb > 0
    ensures InBucket(log + [e], nb, b) == InBucket(log, nb, b) + if Slot(e.name, nb) == b then [e] else []
  {
    if log == [] {
      assert [] + [e] == [e] && [e][1..] == [];
    } else {
      var b0 := Slot(log[0].name, nb) == b;
      assert (log + [e])[1..] == log[1..] + [e];
      InBucketAppended(log[1..], e, nb, b);
      assert InBucket(log + [e], nb, b) == (if b0 then [log[0]] else []) + InBucket(log[1..] + [e], nb, b);
    }
  }

  /** Searching the bucket of a name is searching the whole list. */
  lemma {:induction false} BucketSearchIsListSearch(log: seq<Import>, nb: nat, name: Name)
    requires nb > 0
    ensures FirstValue(InBucket(log, nb, Slot(name, nb)), name) == FirstValue(log, name)
  {
    if log != [] {
      var rest := InBucket(log[1..], nb, Slot(name, nb));
      BucketSearchIsListSearch(log[1..], nb, name);
      if Slot(log[0].name, nb) == Slot(name, nb) {
        assert ([log[0]] + rest)[1..] == rest;
      } else {
        assert [] + rest == rest;
      }
    }
  }

  lemma {:induction false} SearchStep(l: seq<Import>, k: nat, name: Name)
    requires k < |l|
    ensures FirstValue(l[k..], name) == if l[k].name == name then l[k].p else FirstValue(l[k + 1..], name)
  {
    assert l[k..][1..] == l[k + 1..];
  }
}

module SymbolTable {
  import opened Machine
  import opened Hashes
  import opened SymbolSpec

  class SymbolChain {
    var next: SymbolChain?
    const name: Name
    const p: nat

    /** alloc_symbol_chain; next is null because fresh memory is zero. */
    constructor (name: Name, p: nat)
      ensures next == null && this.name == name && this.p == p
    {
      next, this.name, this.p := null, name, p;
    }
  }

  /** Node k of a chain points to node k+1, the last one to nothing. */
  ghost predicate Follows(c: seq<SymbolChain>, k: nat)
    requires k < |c|
    reads c[k]
  {
    c[k].next == if k + 1 < |c| then c[k + 1] else null
  }

  /** From a head pointer, the nodes of c in order. */
  ghost predicate Listed(head: SymbolChain?, c: seq<SymbolChain>)
    reads c
  {
    && head == (if c == [] then null else c[0])
    && forall k :: 0 <= k < |c| ==> Follows(c, k)
  }

  /** The nodes of c carry the imports of l. */
  ghost predicate Holds(c: seq<SymbolChain>, l: seq<Import>) {
    |c| == |l| && forall k :: 0 <= k < |c| ==> c[k].name == l[k].name && c[k].p == l[k].p
  }

  /** No node stands in two places. */
  ghost predicate Separate(chains: seq<seq<SymbolChain>>) {
    && (forall b, j, k :: 0 <= b < |chains| && 0 <= j < k < |chains[b]| ==> chains[b][j] != chains[b][k])
    && (forall b, c, j, k :: 0 <= b < c < |chains| && 0 <= j < |chains[b]| && 0 <= k < |chains[c]|
          ==> chains[b][j] != chains[c][k])
  }

  ghost function NodesOf(chains: seq<seq<SymbolChain>>): set<SymbolChain> {
    set b, k | 0 <= b < |chains| && 0 <= k < |chains[b]| :: chains[b][k]
  }

  lemma {:induction false} SeparateExtended(chains: seq<seq<SymbolChain>>, b: nat, node: SymbolChain)
    requires Separate(chains) && b < |chains|
    requires forall c, k :: 0 <= c < |chains| && 0 <= k < |chains[c]| ==> chains[c][k] != node
    ensures Separate(chains[b := chains[b] + [node]])
  {
  }

  /** Every bucket carries the imports that hash to it. */
  ghost predicate AllHold(chains: seq<seq<SymbolChain>>, log: seq<Import>) {
    |chains| > 0 && forall b :: 0 <= b < |chains| ==> Holds(chains[b], InBucket(log, |chains|, b))
  }

  lemma {:induction false} AllHoldExtended(
    chains: seq<seq<SymbolChain>>, log: seq<Import>, node: SymbolChain, e: Import)
    requires AllHold(chains, log) && node.name == e.name && node.p == e.p
    ensures var b := Slot(e.name, |chains|); AllHold(chains[b := chains[b] + [node]], log + [e])
  {
    var b := Slot(e.name, |chains|);
    var r := chains[b := chains[b] + [node]];
    forall d | 0 <= d < |r| ensures Holds(r[d], InBucket(log + [e], |r|, d)) {
      assert Holds(chains[d], InBucket(log, |chains|, d));
      InBucketAppended(log, e, |chains|, d);
    }
  }

  class Table {
    const bucket: array<SymbolChain?>
    ghost var chains: seq<seq<SymbolChain>>
    ghost var log: seq<Import>
    ghost var Repr: set<object>

    ghost function Nodes(): set<SymbolChain>
      reads this
    {
      NodesOf(chains)
    }

    /** The buckets list the nodes, and the nodes carry the imports. */
    ghost predicate Chained()
      reads this, bucket, Nodes()
    {
      && |chains| == bucket.Length > 0 && Separate(chains)
      && (forall b :: 0 <= b < |chains| ==> Listed(bucket[b], chains[b]))
      && AllHold(chains, log)
    }

    /** The nodes stand in the footprint. */
    ghost predicate Owned()
      reads this
    {
      forall b, k :: 0 <= b < |chains| && 0 <= k < |chains[b]| ==> chains[b][k] in Repr
    }

    ghost predicate Valid()
      reads this, Repr
    {
      this in Repr && bucket in Repr && Owned() && Chained()
    }

    constructor (nb: nat)
      requires nb > 0
      ensures Valid() && log == [] && fresh(Repr)
    {
      bucket := new SymbolChain?[nb](_ => null);
      chains := seq(nb, _ => []);
      log := [];
      new;
      Repr := {this, bucket};
    }

    /** lookup_symbol: the value first recorded under the name, 0 if there is none. */
    method Lookup(name: Name) returns (p: nat)
      requires Valid()
      ensures p == FirstValue(log, name)
    {
      var h := ComputeElfHash(name);
      var b := h % bucket.Length;
      BucketSearchIsListSearch(log, bucket.Length, name);
      p := Walk(bucket[b], name, chains[b], InBucket(log, |chains|, b));
    }

    static method Walk(head: SymbolChain?, name: Name, ghost c: seq<SymbolChain>, ghost l: seq<Import>) returns (p: nat)
      requires Listed(head, c) && Holds(c, l)
      ensures p == FirstValue(l, name)
    {
      var node := head;
      ghost var k := 0;
      assert l[0..] == l;
      while node != null
        invariant k <= |c| && node == if k < |c| then c[k] else null
        invariant FirstValue(l[k..], name) == FirstValue(l, name)
        decreases |c| - k
      {
        SearchStep(l, k, name);
        assert Follows(c, k);
        if node.name == name {
          return node.p;
        }
        node, k := node.next, k + 1;
      }
      p := 0;
    }

    /** The last node of a nonempty chain. */
    static method Last(head: SymbolChain, ghost c: seq<SymbolChain>) returns (last: SymbolChain)
      requires c != [] && Listed(head, c)
      ensures last == c[|c| - 1]
    {
      last := head;
      ghost var k := 0;
      assert Follows(c, 0);
      while last.next != null
        invariant k < |c| && last == c[k] && Follows(c, k)
        decreases |c| - k
      {
        last, k := last.next, k + 1;
        assert Follows(c, k);
      }
    }

    /** Hangs a node behind the last one of bucket b, by writing one pointer. */
    method Link(b: nat, node: SymbolChain)
      requires |chains| == bucket.Length && Separate(chains) && b < |chains|
      requires forall d :: 0 <= d < |chains| ==> Listed(bucket[d], chains[d])
      requires node.next == null && node !in Nodes()
      modifies bucket, Nodes()`next
      ensures forall d :: 0 <= d < |chains| && d != b ==> Listed(bucket[d], chains[d])
      ensures Listed(bucket[b], chains[b] + [node])
    {
      ghost var c := chains[b];
      if bucket[b] == null {
        bucket[b] := node;
        assert Follows(c + [node], 0);
      } else {
        var last := Last(bucket[b], c);
        last.next := node;
        forall k | 0 <= k < |c| + 1 ensures Follows(c + [node], k) {
          assert k < |c| ==> old(Follows(c, k));
        }
      }
      forall d | 0 <= d < |chains| && d != b ensures Listed(bucket[d], chains[d]) {
        assert old(Listed(bucket[d], chains[d]));
        forall k | 0 <= k < |chains[d]| ensures Follows(chains[d], k) {
          assert old(Follows(chains[d], k));
        }
      }
    }

    /** Enters a node that is not in the table yet behind the last one of its bucket. */
    method Enter(b: nat, node: SymbolChain)
      requires Valid() && node.next == null && node !in Repr && b == Slot(node.name, |chains|)
      modifies Repr
      ensures Valid() && Repr == old(Repr) + {node} && log == old(log) + [Import(node.name, node.p)]
    {
      Hang(b, node);
      Repr := Repr + {node};
    }

    method Hang(b: nat, node: SymbolChain)
      requires Chained() && node.next == null && node !in Nodes() && b == Slot(node.name, |chains|)
      modifies this`chains, this`log, bucket, Nodes()`next
      ensures Chained() && chains == old(chains[b := chains[b] + [node]])
      ensures log == old(log) + [Import(node.name, node.p)]
    {
      ghost var e, next := Import(node.name, node.p), chains[b := chains[b] + [node]];
      SeparateExtended(chains, b, node);
      AllHoldExtended(chains, log, node, e);
      Link(b, node);
      assert forall d :: 0 <= d < |next| ==> Listed(bucket[d], next[d]);
      chains, log := next, log + [e];
    }

    /** alloc_dynamic_symbol_chain: a new node behind the last one of its bucket. */
    method Append(name: Name, p: nat)
      requires Valid()
      modifies Repr
      ensures Valid() && fresh(Repr - old(Repr))
      ensures log == old(log) + [Import(name, p)]
    {
      var h := ComputeElfHash(name);
      var b := h % bucket.Length;
      var node := new SymbolChain(name, p);
      Enter(b, node);
    }
  }
}
