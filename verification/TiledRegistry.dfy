/** How a GEMM learns the layout of its activation: producers that write the fragment-tiled layout register
    the buffer's address, the consumer takes the entry off the table, and everyone else says nothing. */
module TiledRegistry {
  import opened Basics

  /** An activation's shape. */
  datatype Shape = Shape(m: nat, k: nat)

  /** What happens to buffers, in order: a producer fills the one at an address, tiled or row-major, or a
      GEMM reads it.  Addresses are reused. */
  datatype Event = Produce(at: nat, tiled: bool, shape: Shape) | Consume(at: nat, shape: Shape)

  /** How a read goes: the layout it assumes, or the error for a shape that is not the registered one. */
  datatype Reading = Tiled | RowMajor | Mismatch

  class Registry {
    var entries: map<nat, Shape>

    constructor ()
      ensures entries == map[]
    {
      entries := map[];
    }

    method Register(at: nat, shape: Shape)
      modifies this
      ensures entries == old(entries)[at := shape]
    {
      entries := entries[at := shape];
    }

    /** Take the entry of an address, if there is one. */
    method Take(at: nat, shape: Shape) returns (r: Reading)
      modifies this
      ensures entries == old(entries) - {at}
      ensures r == if at !in old(entries) then RowMajor else if old(entries)[at] == shape then Tiled else Mismatch
    {
      if at !in entries {
        assert entries - {at} == entries;
        return RowMajor;
      }
      var ent := entries[at];
      entries := entries - {at};
      r := if ent == shape then Tiled else Mismatch;
    }
  }

  // ----- what the events alone say --------------------------------------------------------

  /** The last of the first n events that filled a buffer; with tiledOnly, that filled it tiled. */
  function LastFill(t: seq<Event>, n: nat, at: nat, tiledOnly: bool): (r: Option<nat>)
    requires n <= |t|
    ensures r.Some? ==> r.value < n && t[r.value].Produce? && t[r.value].at == at && (tiledOnly ==> t[r.value].tiled)
    ensures forall j :: (if r.Some? then r.value + 1 else 0) <= j < n ==> !(t[j].Produce? && t[j].at == at && (tiledOnly ==> t[j].tiled))
  {
    if n == 0 then None
    else if t[n - 1].Produce? && t[n - 1].at == at && (tiledOnly ==> t[n - 1].tiled) then Some(n - 1)
    else LastFill(t, n - 1, at, tiledOnly)
  }

  /** The buffer was read after event p. */
  predicate ReadSince(t: seq<Event>, p: nat, n: nat, at: nat)
    requires n <= |t|
  {
    exists j :: p < j < n && t[j].Consume? && t[j].at == at
  }

  /** The table after n events. */
  function Table(t: seq<Event>, n: nat): map<nat, Shape>
    requires n <= |t|
  {
    if n == 0 then map[]
    else
      match t[n - 1]
      case Produce(at, tiled, shape) => if tiled then Table(t, n - 1)[at := shape] else Table(t, n - 1)
      case Consume(at, _) => Table(t, n - 1) - {at}
  }

  /** An address is on the table exactly when its last tiled filling has not been read yet. */
  lemma {:induction false} TableMeans(t: seq<Event>, n: nat, at: nat)
    requires n <= |t|
    ensures var p := LastFill(t, n, at, true);
            && (at in Table(t, n) <==> p.Some? && !ReadSince(t, p.value, n, at))
            && (at in Table(t, n) ==> Table(t, n)[at] == t[p.value].shape)
  {
    if n > 0 {
      TableMeans(t, n - 1, at);
      var p, q := LastFill(t, n, at, true), LastFill(t, n - 1, at, true);
      if q.Some? && p == q {
        if ReadSince(t, q.value, n - 1, at) {
          var j :| q.value < j < n - 1 && t[j].Consume? && t[j].at == at;
          assert ReadSince(t, q.value, n, at);
        }
        if t[n - 1].Consume? && t[n - 1].at == at {
          assert ReadSince(t, q.value, n, at);
        }
      }
    }
  }

  /** The reading of the GEMM that is event i. */
  function ReadingAt(t: seq<Event>, i: nat): Reading
    requires i < |t| && t[i].Consume?
  {
    if t[i].at !in Table(t, i) then RowMajor else if Table(t, i)[t[i].at] == t[i].shape then Tiled else Mismatch
  }

  /** It assumes the layout the buffer was last filled in. */
  ghost predicate RightAt(t: seq<Event>, i: nat)
    requires i < |t| && t[i].Consume?
  {
    var p := LastFill(t, i, t[i].at, false);
    p.Some? && ReadingAt(t, i) == if t[p.value].tiled then Tiled else RowMajor
  }

  /** What a user of the table has to keep to: a buffer is filled before it is read; a tiled filling is read
      once only, in its own shape; and when a row-major filling is read, the last tiled one at that
      address has been read too. */
  ghost predicate DisciplineAt(t: seq<Event>, i: nat)
    requires i < |t| && t[i].Consume?
  {
    var at := t[i].at;
    var p, q := LastFill(t, i, at, false), LastFill(t, i, at, true);
    && p.Some?
    && if t[p.value].tiled then !ReadSince(t, p.value, i, at) && t[p.value].shape == t[i].shape
       else q.None? || ReadSince(t, q.value, i, at)
  }

  /** In every history a GEMM reads its activation in the right layout exactly when the discipline holds
      for it: reading a tiled activation twice, or leaving one unread, is what goes wrong. */
  lemma RightIff(t: seq<Event>, i: nat)
    requires i < |t| && t[i].Consume?
    ensures RightAt(t, i) <==> DisciplineAt(t, i)
  {
    TableMeans(t, i, t[i].at);
    var p, q := LastFill(t, i, t[i].at, false), LastFill(t, i, t[i].at, true);
    if p.Some? && t[p.value].tiled {
      assert q == p;
    }
  }

  /** Run a history against the table: the readings are the specified ones. */
  method Run(reg: Registry, t: seq<Event>) returns (readings: seq<Reading>)
    requires reg.entries == map[]
    modifies reg
    ensures |readings| == |t| && forall i :: 0 <= i < |t| && t[i].Consume? ==> readings[i] == ReadingAt(t, i)
  {
    readings := [];
    for i := 0 to |t|
      invariant |readings| == i && reg.entries == Table(t, i)
      invariant forall j :: 0 <= j < i && t[j].Consume? ==> readings[j] == ReadingAt(t, j)
    {
      var r := RowMajor;
      match t[i] {
        case Produce(at, tiled, shape) =>
          if tiled {
            reg.Register(at, shape);
          }
        case Consume(at, shape) =>
          r := reg.Take(at, shape);
      }
      readings := readings + [r];
    }
  }
}
