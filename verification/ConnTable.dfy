/** The poll loop's table of connections: slots that are reused when a connection closes, a
    high-water mark, and a count of the open ones. */
module ConnTable {
  import opened Protocol

  /** The descriptors in the table. */
  ghost function Used(slots: seq<int>): set<int> {
    if slots == [] then {}
    else
      var n := |slots| - 1;
      Used(slots[..n]) + if slots[n] == FD_INVALID then {} else {slots[n]}
  }

  ghost predicate Distinct(slots: seq<int>) {
    forall i, j :: 0 <= i < j < |slots| && slots[i] == slots[j] ==> slots[i] == FD_INVALID
  }

  lemma {:induction false} UsedIs(slots: seq<int>, fd: int)
    ensures fd in Used(slots) <==> fd != FD_INVALID && exists i :: 0 <= i < |slots| && slots[i] == fd
  {
    if slots != [] {
      var n := |slots| - 1;
      UsedIs(slots[..n], fd);
      if fd in Used(slots[..n]) {
        var i :| 0 <= i < n && slots[..n][i] == fd;
        assert slots[i] == fd;
      }
      if fd != FD_INVALID && exists i :: 0 <= i < |slots| && slots[i] == fd {
        var i :| 0 <= i < |slots| && slots[i] == fd;
        assert i < n ==> slots[..n][i] == fd;
      }
    }
  }

  /** As many descriptors as slots exactly if no slot is free. */
  lemma {:induction false} FullExactly(slots: seq<int>)
    requires Distinct(slots)
    ensures |Used(slots)| <= |slots|
    ensures |Used(slots)| == |slots| <==> forall i :: 0 <= i < |slots| ==> slots[i] != FD_INVALID
  {
    if slots != [] {
      var n := |slots| - 1;
      FullExactly(slots[..n]);
      UsedIs(slots[..n], slots[n]);
      if forall i :: 0 <= i < n ==> slots[..n][i] != FD_INVALID {
        assert forall i :: 0 <= i < n ==> slots[i] == slots[..n][i];
      }
    }
  }

  /** Filling a free slot adds its descriptor and nothing else; emptying one takes its own out. */
  lemma UsedUpdate(slots: seq<int>, i: nat, fd: int)
    requires i < |slots| && Distinct(slots)
    ensures slots[i] == FD_INVALID && fd != FD_INVALID ==> Used(slots[i := fd]) == Used(slots) + {fd}
    ensures fd == FD_INVALID ==> Used(slots[i := fd]) == Used(slots) - {slots[i]}
  {
    var slots' := slots[i := fd];
    forall f
      ensures slots[i] == FD_INVALID && fd != FD_INVALID ==> (f in Used(slots') <==> f in Used(slots) || f == fd)
      ensures fd == FD_INVALID ==> (f in Used(slots') <==> f in Used(slots) && f != slots[i])
    {
      UsedIs(slots, f);
      UsedIs(slots', f);
      assert slots'[i] == fd;
      if f in Used(slots) {
        var j :| 0 <= j < |slots| && slots[j] == f;
        assert j != i ==> slots'[j] == f;
      }
      if f in Used(slots') {
        var j :| 0 <= j < |slots'| && slots'[j] == f;
        assert j != i ==> slots[j] == f;
      }
    }
  }

  class Table {
    const fds: array<int>
    var numSlots: nat
    var numConns: int

    ghost predicate Valid()
      reads this, fds
    {
      && fds.Length == MAX_CONNECTIONS && numSlots <= MAX_CONNECTIONS
      && (forall i :: 0 <= i < fds.Length && fds[i] != FD_INVALID ==> i < numSlots && fds[i] >= 0)
      && Distinct(fds[..])
      && numConns == |Open()|
    }

    ghost function Open(): set<int>
      reads fds
    {
      Used(fds[..])
    }

    constructor ()
      ensures Valid() && fresh(fds) && Open() == {}
    {
      fds := new int[MAX_CONNECTIONS](_ => FD_INVALID);
      numSlots, numConns := 0, 0;
      new;
      forall fd ensures fd !in Used(fds[..]) {
        UsedIs(fds[..], fd);
      }
      assert Used(fds[..]) == {};
    }

    /** The scan for an unused slot. */
    method FreeSlot() returns (i: nat)
      requires Valid()
      ensures i <= numSlots && (i < numSlots ==> fds[i] == FD_INVALID)
      ensures i == numSlots ==> forall j :: 0 <= j < numSlots ==> fds[j] != FD_INVALID
    {
      i := 0;
      while i < numSlots
        invariant i <= numSlots && forall j :: 0 <= j < i ==> fds[j] != FD_INVALID
      {
        if fds[i] == FD_INVALID {
          return;
        }
        i := i + 1;
      }
    }

    /** A new connection gets a slot exactly if fewer than the most are open. */
    method Accept(incoming: int) returns (added: bool)
      requires Valid() && incoming >= 0 && incoming !in Open()
      modifies this, fds
      ensures Valid()
      ensures added <==> |old(Open())| < MAX_CONNECTIONS
      ensures Open() == old(Open()) + if added then {incoming} else {}
    {
      hide Used;
      ghost var before := fds[..];
      FullExactly(before);
      var i := FreeSlot();
      if i == numSlots {
        if numSlots == MAX_CONNECTIONS {
          return false;
        }
        assert before[i] == FD_INVALID;
        numSlots := numSlots + 1;
      }
      assert before[i] == FD_INVALID;
      UsedUpdate(before, i, incoming);
      StaysDistinct(before, i, incoming);
      fds[i] := incoming;
      assert fds[..] == before[i := incoming];
      numConns := numConns + 1;
      return true;
    }

    /** The connection in slot `i` is gone. */
    method Close(i: nat)
      requires Valid() && i < numSlots && fds[i] != FD_INVALID
      modifies this`numConns, fds
      ensures Valid()
      ensures Open() == old(Open()) - {old(fds[i])} && old(fds[i]) in old(Open())
    {
      hide Used;
      ghost var before := fds[..];
      UsedIs(before, before[i]);
      UsedUpdate(before, i, FD_INVALID);
      numConns := numConns - 1;
      fds[i] := FD_INVALID;
      assert fds[..] == before[i := FD_INVALID];
    }
  }

  lemma StaysDistinct(slots: seq<int>, i: nat, fd: int)
    requires i < |slots| && Distinct(slots) && fd !in Used(slots)
    ensures Distinct(slots[i := fd])
  {
    UsedIs(slots, fd);
  }
}
