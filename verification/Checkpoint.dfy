/** Rewriting a checkpoint: tensors are copied or replaced, packed into safetensors files with an index,
    and read back through the index and the files' headers. */
module Checkpoint {
  import opened Basics
  import opened ShardPacking

  type byte = x: int | 0 <= x < 256

  // ----- the length field -------------------------------------------------------------

  /** n in k little-endian bytes. */
  function Little(n: nat, k: nat): (b: seq<byte>)
    ensures |b| == k
  {
    if k == 0 then [] else [n % 256] + Little(n / 256, k - 1)
  }

  function FromLittle(b: seq<byte>): nat {
    if b == [] then 0 else b[0] + 256 * FromLittle(b[1..])
  }

  function Pow256(k: nat): nat { if k == 0 then 1 else 256 * Pow256(k - 1) }

  /** Eight bytes count up to 2^64. */
  lemma LengthLimit()
    ensures Pow256(8) == 0x1_0000_0000_0000_0000
  {
    assert Pow256(2) == 0x1_0000 && Pow256(4) == 0x1_0000_0000 && Pow256(6) == 0x1_0000_0000_0000;
  }

  lemma {:induction false} LittleRoundTrip(n: nat, k: nat)
    requires n < Pow256(k)
    ensures FromLittle(Little(n, k)) == n
  {
    if k > 0 {
      LittleRoundTrip(n / 256, k - 1);
      assert Little(n, k)[1..] == Little(n / 256, k - 1);
    }
  }

  // ----- headers and indexes ------------------------------------------------------------

  /** What a header says under a name: where a tensor lies, or the file's format. */
  datatype Meta = Entry(dtype: string, shape: seq<nat>, lo: nat, hi: nat) | Format(format: string)

  const METADATA := "__metadata__"
  const FORMAT := Format("pt")

  /** JSON text of a value: printing, and parsing bytes. */
  datatype Codec<!H> = Codec(write: H -> seq<byte>, parse: seq<byte> -> Option<H>)

  const SPACE: byte := 32

  ghost predicate Inverse<H>(c: Codec<H>, h: H, k: nat) {
    c.parse(c.write(h) + seq(k, _ => 32)) == Some(h)
  }

  /** Parsing undoes printing, trailing blanks or not. */
  ghost predicate Lawful<H(!new)>(c: Codec<H>) {
    forall h: H, k: nat :: Inverse(c, h, k)
  }

  type Header = map<string, Meta>

  /** Where a tensor's bytes come from: memory, or a stretch of a source file. */
  datatype Provider = Raw(b: seq<byte>) | Stream(file: seq<byte>, start: nat, n: nat) {
    /** A source file holds the bytes its header promises. */
    predicate Valid() { Stream? ==> start + n <= |file| }
    function Bytes(): seq<byte>
      requires Valid()
    {
      if Raw? then b else file[start..start + n]
    }
  }

  /** What is written under a name: type, shape, size as recorded, and the bytes. */
  datatype Tensor = Tensor(dtype: string, shape: seq<nat>, nb: nat, from: Provider) {
    predicate Valid() { from.Valid() && nb == |from.Bytes()| }
  }

  ghost predicate Known(order: seq<string>, tensors: map<string, Tensor>) {
    forall i :: 0 <= i < |order| ==> order[i] in tensors && tensors[order[i]].Valid()
  }

  /** The data of the tensors in order, one after the other. */
  ghost function Data(order: seq<string>, tensors: map<string, Tensor>): seq<byte>
    requires Known(order, tensors)
  {
    if order == [] then [] else Data(order[..|order| - 1], tensors) + tensors[order[|order| - 1]].from.Bytes()
  }

  /** Place i is the last of the first k that holds its name. */
  ghost predicate LastOf(order: seq<string>, k: nat, i: nat)
    requires k <= |order|
  {
    i < k && forall m :: i < m < k ==> order[m] != order[i]
  }

  lemma {:induction false} LastPlace(order: seq<string>, k: nat, name: string) returns (i: nat)
    requires k <= |order| && name in order[..k]
    ensures LastOf(order, k, i) && order[i] == name
    decreases k
  {
    if order[k - 1] == name {
      i := k - 1;
    } else {
      i := LastPlace(order, k - 1, name);
    }
  }

  /** The header of a file holding these tensors in this order: each name at the stretch of the data where it
      was last written, and the format under its reserved name. */
  ghost predicate Describes(hdr: Header, order: seq<string>, tensors: map<string, Tensor>)
    requires Known(order, tensors)
  {
    && hdr.Keys == Elements(order) + {METADATA} && hdr[METADATA] == FORMAT
    && forall i :: 0 <= i < |order| && LastOf(order, |order|, i) && order[i] != METADATA ==> EntryFor(hdr, order, tensors, i)
  }

  ghost predicate EntryFor(hdr: Header, order: seq<string>, tensors: map<string, Tensor>, i: nat)
    requires Known(order, tensors) && i < |order|
  {
    var t, lo := tensors[order[i]], |Data(order[..i], tensors)|;
    order[i] in hdr && hdr[order[i]] == Entry(t.dtype, t.shape, lo, lo + t.nb)
  }

  /** There is only one such header. */
  lemma DescribesUnique(h1: Header, h2: Header, order: seq<string>, tensors: map<string, Tensor>)
    requires Known(order, tensors) && Describes(h1, order, tensors) && Describes(h2, order, tensors)
    ensures h1 == h2
  {
    hide Data;
    forall n | n in h1 ensures h1[n] == h2[n] {
      if n != METADATA {
        assert order[..|order|] == order;
        var i := LastPlace(order, |order|, n);
        assert EntryFor(h1, order, tensors, i) && EntryFor(h2, order, tensors, i);
      }
    }
    assert h1.Keys == h2.Keys;
  }

  /** The header's length does not fit the eight bytes it is written in. */
  ghost predicate TooLong(json: Codec<Header>, order: seq<string>, tensors: map<string, Tensor>)
    requires Known(order, tensors)
  {
    exists hdr: Header :: Describes(hdr, order, tensors) && |Blob(json, hdr)| >= Pow256(8)
  }

  lemma DataSnoc(order: seq<string>, tensors: map<string, Tensor>, k: nat)
    requires Known(order, tensors) && k < |order|
    ensures Data(order[..k + 1], tensors) == Data(order[..k], tensors) + tensors[order[k]].from.Bytes()
  {
    assert order[..k + 1][..k] == order[..k];
  }

  /** The first k tensors have their entries. */
  ghost predicate LaidOut(hdr: Header, order: seq<string>, tensors: map<string, Tensor>, k: nat)
    requires Known(order, tensors) && k <= |order|
  {
    hdr.Keys == Elements(order[..k]) && forall i :: 0 <= i < k && LastOf(order, k, i) ==> EntryFor(hdr, order, tensors, i)
  }

  lemma {:induction false} LayOutNext(hdr: Header, order: seq<string>, tensors: map<string, Tensor>, k: nat, off: nat)
    requires Known(order, tensors) && k < |order| && LaidOut(hdr, order, tensors, k)
    requires off == |Data(order[..k], tensors)|
    ensures var t := tensors[order[k]];
            LaidOut(hdr[order[k] := Entry(t.dtype, t.shape, off, off + t.nb)], order, tensors, k + 1)
    ensures |Data(order[..k + 1], tensors)| == off + tensors[order[k]].nb
  {
    hide Data, Provider.Bytes;
    DataSnoc(order, tensors, k);
    assert Elements(order[..k + 1]) == Elements(order[..k]) + {order[k]};
    var t := tensors[order[k]];
    var hdr' := hdr[order[k] := Entry(t.dtype, t.shape, off, off + t.nb)];
    forall i | 0 <= i < k + 1 && LastOf(order, k + 1, i) ensures EntryFor(hdr', order, tensors, i) {
      if i < k {
        assert LastOf(order, k, i) && EntryFor(hdr, order, tensors, i);
      }
    }
  }

  /** The loop that lays the tensors out. */
  method LayOut(order: seq<string>, tensors: map<string, Tensor>) returns (hdr: Header)
    requires Known(order, tensors)
    ensures Describes(hdr, order, tensors)
  {
    hide Data, EntryFor;
    hdr := map[];
    var off := 0;
    NoData(order, tensors);
    for k := 0 to |order|
      invariant off == |Data(order[..k], tensors)| && LaidOut(hdr, order, tensors, k)
    {
      LayOutNext(hdr, order, tensors, k, off);
      var name := order[k];
      var t := tensors[name];
      var nb := if t.from.Raw? then |t.from.b| else t.nb;
      hdr := hdr[name := Entry(t.dtype, t.shape, off, off + nb)];
      off := off + nb;
    }
    assert order[..|order|] == order;
    ghost var laid := hdr;
    hdr := hdr[METADATA := FORMAT];
    forall i | 0 <= i < |order| && LastOf(order, |order|, i) && order[i] != METADATA ensures EntryFor(hdr, order, tensors, i) {
      EntryStays(laid, order, tensors, i);
    }
  }

  lemma EntryStays(hdr: Header, order: seq<string>, tensors: map<string, Tensor>, i: nat)
    requires Known(order, tensors) && i < |order| && order[i] != METADATA && EntryFor(hdr, order, tensors, i)
    ensures EntryFor(hdr[METADATA := FORMAT], order, tensors, i)
  {
    hide Data;
  }

  lemma NoData(order: seq<string>, tensors: map<string, Tensor>)
    requires Known(order, tensors)
    ensures Data(order[..0], tensors) == []
  {
  }

  // ----- writing one file --------------------------------------------------------------------

  const CHUNK := 33554432

  /** Reading at most want bytes at a position: fewer only at the end of the file. */
  function Read(file: seq<byte>, pos: nat, want: nat): seq<byte> {
    file[Min(pos, |file|)..Min(pos + want, |file|)]
  }

  /** The copying loop: read a chunk, write it, count down what was read. */
  method CopyRange(out: seq<byte>, file: seq<byte>, start: nat, n: nat) returns (r: seq<byte>)
    requires start + n <= |file|
    ensures r == out + file[start..start + n]
  {
    r := out;
    var left, pos := n, start;
    while left != 0
      invariant 0 <= left <= n && pos == start + n - left
      invariant r == out + file[start..pos]
      decreases left
    {
      var c := Read(file, pos, Min(left, CHUNK));
      r := r + c;
      left := left - |c|;
      assert file[start..pos] + c == file[start..pos + |c|];
      pos := pos + |c|;
    }
  }

  /** Where the copying loop stands after k rounds: how much is left, and the position. */
  function Rounds(file: seq<byte>, start: nat, n: nat, k: nat): (s: (nat, nat))
    ensures s.0 <= n
  {
    if k == 0 then (n, start)
    else
      var (left, pos) := Rounds(file, start, n, k - 1);
      if left == 0 then (left, pos)
      else
        var c := |Read(file, pos, Min(left, CHUNK))|;
        (left - c, pos + c)
  }

  lemma {:induction false} RoundsAt(file: seq<byte>, start: nat, n: nat, k: nat)
    ensures var (left, pos) := Rounds(file, start, n, k);
            pos == start + n - left && (start + n > |file| && n > 0 ==> left > 0)
            && (start + n <= |file| && k >= n ==> left == 0)
            && (start + n <= |file| ==> left <= n - Min(k, n))
  {
    if k > 0 {
      RoundsAt(file, start, n, k - 1);
    }
  }

  /** The copy comes to an end exactly when the source holds all the bytes; a truncated source leaves it
      reading nothing for ever. */
  lemma CopyEndsIff(file: seq<byte>, start: nat, n: nat)
    ensures (exists k :: Rounds(file, start, n, k).0 == 0) <==> (n == 0 || start + n <= |file|)
  {
    RoundsAt(file, start, n, n);
    if k :| Rounds(file, start, n, k).0 == 0 {
      RoundsAt(file, start, n, k);
    }
    assert n == 0 ==> Rounds(file, start, n, 0).0 == 0;
  }

  function Padding(n: nat): nat { (8 - n % 8) % 8 }

  /** The text of a header, blanks added up to a multiple of eight bytes. */
  function Blob(json: Codec<Header>, hdr: Header): seq<byte> {
    var text := json.write(hdr);
    text + seq(Padding(|text|), _ => SPACE)
  }

  lemma BlobIsAligned(json: Codec<Header>, hdr: Header)
    ensures |Blob(json, hdr)| % 8 == 0
  {
  }

  /** A file: length, header text, data. */
  ghost predicate IsFile(file: seq<byte>, json: Codec<Header>, order: seq<string>, tensors: map<string, Tensor>)
    requires Known(order, tensors)
  {
    exists hdr: Header :: IsFileWith(file, json, hdr, order, tensors)
  }

  ghost predicate IsFileWith(file: seq<byte>, json: Codec<Header>, hdr: Header, order: seq<string>, tensors: map<string, Tensor>)
    requires Known(order, tensors)
  {
    && Describes(hdr, order, tensors) && |Blob(json, hdr)| < Pow256(8)
    && file == Little(|Blob(json, hdr)|, 8) + Blob(json, hdr) + Data(order, tensors)
  }

  /** Write one file.  It fails exactly when the header's length does not fit its field. */
  method WriteSafetensors(json: Codec<Header>, order: seq<string>, tensors: map<string, Tensor>) returns (file: Option<seq<byte>>)
    requires Known(order, tensors)
    ensures file.Some? ==> IsFile(file.value, json, order, tensors)
    ensures file.None? <==> TooLong(json, order, tensors)
  {
    hide Pow256, Describes, Data, Little, Blob;
    var hdr := LayOut(order, tensors);
    var blob := Blob(json, hdr);
    OnlyHeader(json, order, tensors, hdr);
    if |blob| >= Pow256(8) {
      return None;
    }
    var out := Little(|blob|, 8) + blob;
    NoData(order, tensors);
    assert out + [] == out;
    for k := 0 to |order|
      invariant out == Little(|blob|, 8) + blob + Data(order[..k], tensors)
    {
      var t := tensors[order[k]];
      DataSnoc(order, tensors, k);
      ghost var before := out;
      if t.from.Raw? {
        out := out + t.from.b;
      } else {
        out := CopyRange(out, t.from.file, t.from.start, t.from.n);
      }
      assert out == before + t.from.Bytes();
      assert out == Little(|blob|, 8) + blob + (Data(order[..k], tensors) + t.from.Bytes());
    }
    assert order[..|order|] == order;
    assert IsFileWith(out, json, hdr, order, tensors);
    file := Some(out);
  }

  lemma OnlyHeader(json: Codec<Header>, order: seq<string>, tensors: map<string, Tensor>, hdr: Header)
    requires Known(order, tensors) && Describes(hdr, order, tensors)
    ensures TooLong(json, order, tensors) <==> |Blob(json, hdr)| >= Pow256(8)
  {
    hide Describes, Blob, Pow256;
    if TooLong(json, order, tensors) {
      var h: Header :| Describes(h, order, tensors) && |Blob(json, h)| >= Pow256(8);
      DescribesUnique(h, hdr, order, tensors);
    }
  }

  // ----- reading back ------------------------------------------------------------------------------

  /** A file's header and where its data starts. */
  function ReadHeader(json: Codec<Header>, file: seq<byte>): (r: Option<(Header, nat)>)
  {
    if |file| < 8 then None
    else
      var n := FromLittle(file[..8]);
      if 8 + n > |file| then None
      else
        var h := json.parse(file[8..8 + n]);
        if h.None? then None else Some((h.value, 8 + n))
  }

  /** A tensor's bytes. */
  function Load(file: seq<byte>, hdr: Header, base: nat, name: string): Option<seq<byte>> {
    if name in hdr && hdr[name].Entry? && hdr[name].lo <= hdr[name].hi && base + hdr[name].hi <= |file|
    then Some(file[base + hdr[name].lo..base + hdr[name].hi])
    else None
  }

  lemma {:induction false} HeaderReadsBack(file: seq<byte>, json: Codec<Header>, hdr: Header, order: seq<string>, tensors: map<string, Tensor>)
    requires Known(order, tensors) && Lawful(json) && IsFileWith(file, json, hdr, order, tensors)
    ensures ReadHeader(json, file) == Some((hdr, 8 + |Blob(json, hdr)|))
  {
    hide Pow256, Little, FromLittle, Describes, Data;
    var blob := Blob(json, hdr);
    LittleRoundTrip(|blob|, 8);
    assert file[..8] == Little(|blob|, 8);
    assert file[8..8 + |blob|] == blob;
    assert Inverse(json, hdr, Padding(|json.write(hdr)|));
  }

  lemma {:induction false} DataAt(order: seq<string>, tensors: map<string, Tensor>, i: nat)
    requires Known(order, tensors) && i < |order|
    ensures var lo, t := |Data(order[..i], tensors)|, tensors[order[i]];
            lo + t.nb <= |Data(order, tensors)| && Data(order, tensors)[lo..lo + t.nb] == t.from.Bytes()
    decreases |order|
  {
    hide Data, Provider.Bytes;
    var n := |order| - 1;
    DataSnoc(order, tensors, n);
    assert order[..n + 1] == order;
    if i < n {
      DataAt(order[..n], tensors, i);
      assert order[..n][..i] == order[..i];
    }
  }

  /** Every tensor of a written file reads back as the bytes it was given; one under the format's name does
      not read back at all. */
  lemma {:induction false} TensorReadsBack(file: seq<byte>, json: Codec<Header>, order: seq<string>, tensors: map<string, Tensor>, name: string)
    requires Known(order, tensors) && Lawful(json) && IsFile(file, json, order, tensors) && name in order
    ensures name in tensors && tensors[name].Valid()
    ensures var r := ReadHeader(json, file);
            r.Some? && Load(file, r.value.0, r.value.1, name) == if name == METADATA then None else Some(tensors[name].from.Bytes())
  {
    hide Describes, Data, Blob, ReadHeader, Load, Provider.Bytes, IsFileWith;
    var hdr: Header :| IsFileWith(file, json, hdr, order, tensors);
    HeaderReadsBack(file, json, hdr, order, tensors);
    LoadsTensor(file, json, hdr, order, tensors, name);
  }

  lemma {:induction false} LoadsTensor(file: seq<byte>, json: Codec<Header>, hdr: Header, order: seq<string>, tensors: map<string, Tensor>, name: string)
    requires Known(order, tensors) && IsFileWith(file, json, hdr, order, tensors) && name in order
    ensures name in tensors && tensors[name].Valid()
    ensures Load(file, hdr, 8 + |Blob(json, hdr)|, name) == if name == METADATA then None else Some(tensors[name].from.Bytes())
  {
    hide Pow256, Little, Data, Blob, Provider.Bytes;
    assert order[..|order|] == order;
    var i := LastPlace(order, |order|, name);
    if name != METADATA {
      DataAt(order, tensors, i);
      assert EntryFor(hdr, order, tensors, i);
      LoadsFromData(file, Little(|Blob(json, hdr)|, 8) + Blob(json, hdr), Data(order, tensors), hdr, name);
    }
  }

  lemma {:induction false} LoadsFromData(file: seq<byte>, front: seq<byte>, data: seq<byte>, hdr: Header, name: string)
    requires file == front + data && name in hdr && hdr[name].Entry? && hdr[name].lo <= hdr[name].hi <= |data|
    ensures Load(file, hdr, |front|, name) == Some(data[hdr[name].lo..hdr[name].hi])
  {
    var lo, hi := hdr[name].lo, hdr[name].hi;
    assert file[|front| + lo..|front| + hi] == data[lo..hi];
  }
}
