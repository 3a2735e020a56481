/** The chained hash table that lets the daemon find a listed item by metatile without
    walking the lists. */
module HashIndex {
  import opened Protocol
  import opened QueueSpec
  import opened Rings
  import opened Seqs

  const HASHIDX_SIZE := 2213
  const TWO64 := 0x1_0000_0000_0000_0000

  /** A C `char` is signed where the daemon runs. */
  function SignedChar(c: char): int {
    var b := c as int % 256;
    if b < 128 then b else b - 256
  }

  function NameSum(name: string): int {
    if name == "" then 0 else NameSum(name[..|name| - 1]) + SignedChar(name[|name| - 1])
  }

  /** The bucket of a metatile, in 64-bit wrap-around arithmetic. */
  function BucketOf(k: Key): (b: nat)
    ensures b < HASHIDX_SIZE
  {
    var key := NameSum(k.xmlname) % TWO64 % 0x200 * 0x10_0000_0000_0000
               + k.z % TWO64 * 0x1_0000_0000_0000
               + k.mx % 0x100_0000 * 0x100_0000
               + k.my % 0x100_0000;
    key % TWO64 % HASHIDX_SIZE
  }

  method CalcHashKey(item: Item) returns (b: nat)
    ensures b == BucketOf(KeyOf(item.req)) && b < HASHIDX_SIZE
  {
    var xmlnameHash := 0;
    var i := 0;
    while i < |item.req.xmlname|
      invariant 0 <= i <= |item.req.xmlname|
      invariant xmlnameHash == NameSum(item.req.xmlname[..i]) % TWO64
    {
      xmlnameHash := (xmlnameHash + SignedChar(item.req.xmlname[i])) % TWO64;
      i := i + 1;
      assert item.req.xmlname[..i][..i - 1] == item.req.xmlname[..i - 1];
    }
    assert item.req.xmlname[..i] == item.req.xmlname;
    var key := xmlnameHash % 0x200 * 0x10_0000_0000_0000
               + item.req.z % TWO64 * 0x1_0000_0000_0000
               + item.mx % 0x100_0000 * 0x100_0000
               + item.my % 0x100_0000;
    b := key % TWO64 % HASHIDX_SIZE;
  }

  /** One cell.  The first cell of a bucket lives in the table; the rest are allocated. */
  class Cell {
    const bucket: nat
    var next: Cell?
    var item: Item?

    constructor (bucket: nat, item: Item?)
      ensures this.bucket == bucket && this.item == item && next == null
    {
      this.bucket, this.item, this.next := bucket, item, null;
    }
  }

  class Index {
    const table: seq<Cell>
    ghost var chains: seq<seq<Cell>>
    /** What each bucket holds, in chain order. */
    ghost var entries: seq<seq<Item>>
    ghost var cells: set<Cell>

    ghost predicate BucketOk(b: nat)
      requires b < |table| && b < |chains| && b < |entries|
      reads this, cells
    {
      var c, e := chains[b], entries[b];
      && |c| >= 1 && c[0] == table[b] && NoDup(c)
      && (forall i :: 0 <= i < |c| ==> c[i] in cells && c[i].bucket == b)
      && (forall i {:trigger c[i].next} :: 0 <= i < |c| ==> c[i].next == if i + 1 < |c| then c[i + 1] else null)
      && (if |e| == 0 then |c| == 1 && c[0].item == null
          else |c| == |e| && forall i {:trigger c[i].item} :: 0 <= i < |e| ==> c[i].item == e[i])
    }

    ghost predicate Valid()
      reads this, cells
    {
      && |table| == |chains| == |entries| == HASHIDX_SIZE
      && forall b {:trigger BucketOk(b)} :: 0 <= b < HASHIDX_SIZE ==> BucketOk(b)
    }

    constructor ()
      ensures Valid() && fresh(cells)
      ensures forall b :: 0 <= b < HASHIDX_SIZE ==> entries[b] == []
    {
      var t: seq<Cell> := [];
      while |t| < HASHIDX_SIZE
        invariant |t| <= HASHIDX_SIZE
        invariant forall b :: 0 <= b < |t| ==> fresh(t[b]) && t[b].bucket == b && t[b].item == null && t[b].next == null
      {
        var c := new Cell(|t|, null);
        t := t + [c];
      }
      table := t;
      chains := seq(HASHIDX_SIZE, b requires 0 <= b < |t| => [t[b]]);
      entries := seq(HASHIDX_SIZE, _ => []);
      cells := set c | c in t;
    }

    /** The item in the index that asks for the same metatile as `item`, or null. */
    method Lookup(item: Item) returns (r: Item?)
      requires Valid()
      ensures var b := BucketOf(KeyOf(item.req));
              if r != null then r in entries[b] && KeyOf(r.req) == KeyOf(item.req)
              else forall i :: 0 <= i < |entries[b]| ==> KeyOf(entries[b][i].req) != KeyOf(item.req)
    {
      var key := CalcHashKey(item);
      assert BucketOk(key);
      if table[key].item == null {
        return null;
      }
      var cell: Cell? := table[key];
      ghost var n := 0;
      while cell != null
        invariant 0 <= n <= |chains[key]|
        invariant cell == if n < |chains[key]| then chains[key][n] else null
        invariant forall i :: 0 <= i < n ==> KeyOf(entries[key][i].req) != KeyOf(item.req)
        decreases |chains[key]| - n
      {
        var test := cell.item;
        if && item.mx == test.mx && item.my == test.my && item.req.z == test.req.z
           && item.req.xmlname == test.req.xmlname {
          assert test == entries[key][n];
          return test;
        }
        cell := cell.next;
        n := n + 1;
      }
      return null;
    }

    /** A change confined to bucket `key` leaves the other buckets in order. */
    twostate lemma OtherBuckets(key: nat)
      requires old(Valid()) && key < HASHIDX_SIZE
      requires |chains| == |entries| == HASHIDX_SIZE && BucketOk(key)
      requires chains == old(chains)[key := chains[key]] && entries == old(entries)[key := entries[key]]
      requires old(cells) <= cells
      requires forall c :: c in old(cells) && c.bucket != key ==> c.next == old(c.next) && c.item == old(c.item)
      ensures Valid()
    {
      forall b | 0 <= b < HASHIDX_SIZE && b != key ensures BucketOk(b) {
        assert old(BucketOk(b));
      }
    }

    /** Add `item` at the end of its bucket. */
    method Insert(item: Item)
      requires Valid()
      modifies this`chains, this`entries, this`cells, cells`next, cells`item
      ensures Valid() && fresh(cells - old(cells))
      ensures entries == old(var b := BucketOf(KeyOf(item.req)); entries[b := entries[b] + [item]])
    {
      var key := CalcHashKey(item);
      assert BucketOk(key);
      if table[key].item == null {
        table[key].item := item;
      } else {
        var prevCell := table[key];
        var nextCell := table[key].next;
        ghost var n := 0;
        while nextCell != null
          invariant 0 <= n < |chains[key]| && prevCell == chains[key][n] && nextCell == prevCell.next
          decreases |chains[key]| - n
        {
          prevCell := nextCell;
          nextCell := nextCell.next;
          n := n + 1;
        }
        nextCell := new Cell(key, item);
        prevCell.next := nextCell;
        chains := chains[key := chains[key] + [nextCell]];
        cells := cells + {nextCell};
      }
      entries := entries[key := entries[key] + [item]];
      assert BucketOk(key);
      OtherBuckets(key);
    }

    /** Take the first entry that asks for the same metatile as `item` out of its bucket; `k`
        is where it stood, or the bucket's length if there was none. */
    method Remove(item: Item) returns (ghost k: nat)
      requires Valid()
      modifies this`chains, this`entries, this`cells, cells`next, cells`item
      ensures Valid() && cells == old(cells)
      ensures var b := BucketOf(KeyOf(item.req)); var e := old(entries)[b];
              && k <= |e|
              && (forall i :: 0 <= i < k ==> KeyOf(e[i].req) != KeyOf(item.req))
              && (k < |e| ==> KeyOf(e[k].req) == KeyOf(item.req))
              && entries == if k < |e| then old(entries)[b := e[..k] + e[k + 1..]] else old(entries)
    {
      var key := CalcHashKey(item);
      assert BucketOk(key);
      k := 0;
      if table[key].item == null {
        return;
      }
      var prevCell := table[key];
      var nextCell: Cell? := table[key];
      while nextCell != null
        invariant 0 <= k <= |chains[key]|
        invariant nextCell == if k < |chains[key]| then chains[key][k] else null
        invariant prevCell == if k == 0 then chains[key][0] else chains[key][k - 1]
        invariant forall i :: 0 <= i < k ==> KeyOf(entries[key][i].req) != KeyOf(item.req)
        invariant unchanged(this) && unchanged(cells)
        decreases |chains[key]| - k
      {
        var test := nextCell.item;
        if && item.mx == test.mx && item.my == test.my && item.req.z == test.req.z
           && item.req.xmlname == test.req.xmlname {
          assert test == entries[key][k];
          CutOut(key, prevCell, nextCell, k);
          return;
        }
        prevCell := nextCell;
        nextCell := nextCell.next;
        k := k + 1;
      }
    }

    /** Remove the k-th cell of a bucket.  The first cell cannot be unlinked, as it lives in
        the table: the second one is copied over it instead. */
    method CutOut(key: nat, prevCell: Cell, nextCell: Cell, ghost k: nat)
      requires Valid() && key < HASHIDX_SIZE && k < |entries[key]| == |chains[key]|
      requires nextCell == chains[key][k] && prevCell == if k == 0 then nextCell else chains[key][k - 1]
      modifies this`chains, this`entries, this`cells, cells`next, cells`item
      ensures Valid() && cells == old(cells)
      ensures entries == old(entries)[key := old(entries)[key][..k] + old(entries)[key][k + 1..]]
    {
      assert BucketOk(key);
      ghost var c, e := chains[key], entries[key];
      nextCell.item := null;
      if nextCell.next != null {
        if nextCell == table[key] {
          var second := nextCell.next;
          nextCell.next := second.next;
          nextCell.item := second.item;
          chains := chains[key := [c[0]] + c[2..]];
        } else {
          prevCell.next := nextCell.next;
          chains := chains[key := c[..k] + c[k + 1..]];
        }
      } else {
        prevCell.next := null;
        if k > 0 {
          chains := chains[key := c[..k] + c[k + 1..]];
        }
      }
      entries := entries[key := e[..k] + e[k + 1..]];
      assert BucketOk(key);
      OtherBuckets(key);
    }
  }
}
