/** The whole rewrite: the order of the output tensors, sharded files with an index, and reading any tensor
    back through them. */
module CheckpointRewrite {
  import opened Basics
  import opened ShardPacking
  import opened Checkpoint

  // ----- the output order --------------------------------------------------------------

  const SCALE := "_scale"

  /** Source order, each replaced weight followed by its new scale. */
  function Order(names: seq<string>, added: set<string>): seq<string> {
    if names == [] then []
    else
      var name := names[|names| - 1];
      Order(names[..|names| - 1], added) + [name] +
      if name in added && name + SCALE in added then [name + SCALE] else []
  }

  method BuildOrder(names: seq<string>, added: set<string>) returns (order: seq<string>)
    ensures order == Order(names, added)
  {
    order := [];
    for i := 0 to |names|
      invariant order == Order(names[..i], added)
    {
      assert names[..i + 1][..i] == names[..i];
      var name := names[i];
      order := order + [name];
      if name in added && name + SCALE in added {
        order := order + [name + SCALE];
      }
    }
    assert names[..|names|] == names;
  }

  /** name's new scale goes into the output. */
  predicate BringsScale(name: string, added: set<string>) { name in added && name + SCALE in added }

  lemma {:induction false} OrderHas(names: seq<string>, added: set<string>, x: string)
    ensures x in Order(names, added) <==> x in names || exists n :: n in names && BringsScale(n, added) && x == n + SCALE
  {
    if names != [] {
      var front, name := names[..|names| - 1], names[|names| - 1];
      OrderHas(front, added, x);
      assert names == front + [name];
    }
  }

  /** A source that already has a tensor by the name of a new scale. */
  ghost predicate ScaleClash(names: seq<string>, added: set<string>) {
    exists n :: n in names && BringsScale(n, added) && n + SCALE in names
  }

  lemma ScaleInjective(a: string, b: string)
    requires a + SCALE == b + SCALE
    ensures a == b
  {
    assert a == (a + SCALE)[..|a|] && b == (b + SCALE)[..|b|];
  }

  lemma OrderNone(added: set<string>)
    ensures Order([], added) == []
  {
  }

  lemma OrderSnoc(names: seq<string>, added: set<string>)
    requires names != []
    ensures var name := names[|names| - 1];
            Order(names, added) == Order(names[..|names| - 1], added) +
              ([name] + if BringsScale(name, added) then [name + SCALE] else [])
  {
  }

  /** The output names are distinct exactly when the source has none of the new scales' names. */
  lemma {:induction false} OrderDistinctIff(names: seq<string>, added: set<string>)
    requires Distinct(names)
    ensures Distinct(Order(names, added)) <==> !ScaleClash(names, added)
  {
    hide Order;
    if names == [] {
      OrderNone(added);
    } else {
      OrderSnoc(names, added);
      var front, name := names[..|names| - 1], names[|names| - 1];
      var rest := Order(front, added);
      OrderDistinctIff(front, added);
      OrderHas(front, added, name);
      OrderHas(front, added, name + SCALE);
      assert names == front + [name] && name !in front;
      var tail := [name] + if BringsScale(name, added) then [name + SCALE] else [];
      assert Order(names, added) == rest + tail;
      if name in rest {
        Repeats(rest, tail, name);
        assert ScaleClash(names, added);
      } else if BringsScale(name, added) && name + SCALE in rest {
        Repeats(rest, tail, name + SCALE);
        ScaleAmongNames(front, name, added);
      } else {
        DistinctExtended(rest, name, BringsScale(name, added));
        ClashExtended(front, name, added);
      }
    }
  }

  lemma Repeats(rest: seq<string>, tail: seq<string>, x: string)
    requires x in rest && x in tail
    ensures !Distinct(rest + tail)
  {
    var i :| 0 <= i < |rest| && rest[i] == x;
    var j :| 0 <= j < |tail| && tail[j] == x;
    assert (rest + tail)[i] == (rest + tail)[|rest| + j];
  }

  lemma ScaleAmongNames(front: seq<string>, name: string, added: set<string>)
    requires name !in front && BringsScale(name, added)
    requires name + SCALE in front || exists n :: n in front && BringsScale(n, added) && name + SCALE == n + SCALE
    ensures ScaleClash(front + [name], added)
  {
    if n :| n in front && BringsScale(n, added) && name + SCALE == n + SCALE {
      ScaleInjective(name, n);
    }
    assert name in front + [name] && name + SCALE in front + [name];
  }

  lemma DistinctExtended(rest: seq<string>, name: string, scale: bool)
    requires name !in rest && (scale ==> name + SCALE !in rest)
    ensures Distinct(rest + ([name] + if scale then [name + SCALE] else [])) <==> Distinct(rest)
  {
    var all := rest + ([name] + if scale then [name + SCALE] else []);
    assert |name + SCALE| != |name|;
    forall i, j | 0 <= i < j < |rest| ensures all[i] == rest[i] && all[j] == rest[j] {}
    if Distinct(rest) {
      forall i, j | 0 <= i < j < |all| ensures all[i] != all[j] {
        if i < |rest| {
          assert all[i] in rest;
        }
      }
    }
    if !Distinct(rest) {
      var i, j :| 0 <= i < j < |rest| && rest[i] == rest[j];
      assert all[i] == all[j];
    }
  }

  lemma ClashExtended(front: seq<string>, name: string, added: set<string>)
    requires forall n :: n in front && BringsScale(n, added) ==> name != n + SCALE
    requires BringsScale(name, added) ==> name + SCALE !in front
    ensures ScaleClash(front + [name], added) <==> ScaleClash(front, added)
  {
    assert |name + SCALE| != |name|;
    if ScaleClash(front, added) {
      var n :| n in front && BringsScale(n, added) && n + SCALE in front;
      assert n in front + [name] && n + SCALE in front + [name];
    }
  }

  // ----- shard file names ---------------------------------------------------------------

  function Digit(d: nat): char
    requires d < 10
  {
    ('0' as int + d) as char
  }

  /** n in w decimal digits, zeros in front. */
  function Zfill(n: nat, w: nat): (s: string)
    ensures |s| == w
  {
    if w == 0 then "" else Zfill(n / 10, w - 1) + [Digit(n % 10)]
  }

  function DecimalLength(n: nat): (w: nat)
    ensures w >= 1
  {
    if n < 10 then 1 else 1 + DecimalLength(n / 10)
  }

  function Pow10(w: nat): nat { if w == 0 then 1 else 10 * Pow10(w - 1) }

  lemma {:induction false} LengthSuffices(n: nat, w: nat)
    requires w >= DecimalLength(n)
    ensures n < Pow10(w)
    decreases w
  {
    if n >= 10 {
      LengthSuffices(n / 10, w - 1);
    } else {
      PowPositive(w - 1);
    }
  }

  lemma {:induction false} PowPositive(w: nat)
    ensures Pow10(w) >= 1
  {
    if w > 0 {
      PowPositive(w - 1);
    }
  }

  lemma {:induction false} ZfillInjective(a: nat, b: nat, w: nat)
    requires a < Pow10(w) && b < Pow10(w) && Zfill(a, w) == Zfill(b, w)
    ensures a == b
    decreases w
  {
    if w > 0 {
      var s, t := Zfill(a, w), Zfill(b, w);
      assert s[..w - 1] == Zfill(a / 10, w - 1) && t[..w - 1] == Zfill(b / 10, w - 1);
      assert s[w - 1] == Digit(a % 10) && t[w - 1] == Digit(b % 10);
      ZfillInjective(a / 10, b / 10, w - 1);
    }
  }

  function Width(shards: nat): nat { Max(DecimalLength(shards), 3) }

  function ShardName(i: nat, shards: nat): string {
    "model-" + Zfill(i + 1, Width(shards)) + "-of-" + Zfill(shards, Width(shards)) + ".safetensors"
  }

  /** Shards 1 and 2 of 12, and shard 1234 of 1234. */
  lemma ShardNameExamples()
    ensures ShardName(0, 12) == "model-" + "001" + "-of-" + "012" + ".safetensors"
    ensures ShardName(1, 12) == "model-" + "002" + "-of-" + "012" + ".safetensors"
    ensures ShardName(1233, 1234) == "model-" + "1234" + "-of-" + "1234" + ".safetensors"
  {
    Numerals();
    LengthStep(12);
    LengthStep(1234);
    LengthStep(123);
    hide Zfill, DecimalLength;
    assert Width(12) == 3 && Width(1234) == 4;
  }

  lemma Numerals()
    ensures Zfill(1, 3) == "001" && Zfill(2, 3) == "002" && Zfill(12, 3) == "012" && Zfill(1234, 4) == "1234"
  {
    hide Zfill;
    ThreeDigits(1, 0, 0);
    ThreeDigits(2, 0, 0);
    ThreeDigits(12, 1, 0);
    ThreeDigits(123, 12, 1);
    ZfillStep(1234, 3);
  }

  lemma ZfillStep(n: nat, w: nat)
    ensures Zfill(n, w + 1) == Zfill(n / 10, w) + [Digit(n % 10)]
  {
  }

  lemma ThreeDigits(n: nat, q: nat, p: nat)
    requires q == n / 10 && p == q / 10
    ensures Zfill(n, 3) == [Digit(p % 10), Digit(q % 10), Digit(n % 10)]
  {
    ZfillStep(n, 2);
    ZfillStep(q, 1);
    ZfillStep(p, 0);
    hide Zfill;
    assert Zfill(p / 10, 0) == [];
  }

  lemma LengthStep(n: nat)
    ensures n < 10 ==> DecimalLength(n) == 1
    ensures 10 <= n < 100 ==> DecimalLength(n) == 2
    ensures n >= 10 ==> DecimalLength(n) == DecimalLength(n / 10) + 1
  {
  }

  const INDEX := "model.safetensors.index.json"
  const SINGLE := "model.safetensors"

  lemma {:induction false} LengthMono(a: nat, b: nat)
    requires a <= b
    ensures DecimalLength(a) <= DecimalLength(b)
    decreases b
  {
    if a >= 10 {
      LengthMono(a / 10, b / 10);
    }
  }

  /** Different shards go to different files, none of them the index. */
  lemma ShardNamesDiffer(i: nat, j: nat, shards: nat)
    requires i < shards && j < shards
    ensures ShardName(i, shards) == ShardName(j, shards) <==> i == j
    ensures ShardName(i, shards) != INDEX
  {
    var w := Width(shards);
    var s, t := ShardName(i, shards), ShardName(j, shards);
    assert s[6..6 + w] == Zfill(i + 1, w) && t[6..6 + w] == Zfill(j + 1, w);
    LengthMono(i + 1, shards);
    LengthMono(j + 1, shards);
    LengthSuffices(i + 1, w);
    LengthSuffices(j + 1, w);
    if s == t {
      ZfillInjective(i + 1, j + 1, w);
    }
    assert s[5] == '-' && INDEX[5] == '.';
  }

  // ----- writing the shards ------------------------------------------------------------------

  function Names(items: seq<Item>): (r: seq<string>)
    ensures |r| == |items| && forall i :: 0 <= i < |r| ==> r[i] == items[i].name
  {
    seq(|items|, i requires 0 <= i < |items| => items[i].name)
  }

  function Sizes(order: seq<string>, tensors: map<string, Tensor>): (r: seq<Item>)
    requires Known(order, tensors)
    ensures |r| == |order| && forall i :: 0 <= i < |r| ==> r[i] == Item(order[i], tensors[order[i]].nb)
  {
    seq(|order|, i requires 0 <= i < |order| && order[i] in tensors => Item(order[i], tensors[order[i]].nb))
  }

  lemma {:induction false} FlattenHas(shards: seq<seq<Item>>, j: nat, a: nat)
    requires j < |shards| && a < |shards[j]|
    ensures shards[j][a] in Flatten(shards)
  {
    if j > 0 {
      FlattenHas(shards[1..], j - 1, a);
    }
  }

  lemma {:induction false} FlattenFind(shards: seq<seq<Item>>, k: nat) returns (j: nat, a: nat)
    requires k < |Flatten(shards)|
    ensures j < |shards| && a < |shards[j]| && shards[j][a] == Flatten(shards)[k]
    decreases |shards|
  {
    if k < |shards[0]| {
      j, a := 0, k;
    } else {
      j, a := FlattenFind(shards[1..], k - |shards[0]|);
      j := j + 1;
    }
  }

  /** The directory a checkpoint is written to. */
  class Directory {
    var files: map<string, seq<byte>>

    constructor ()
      ensures files == map[]
    {
      files := map[];
    }
  }

  /** Shard j is on disk under its name. */
  ghost predicate OnDisk(files: map<string, seq<byte>>, json: Codec<Header>, shards: seq<seq<Item>>, j: nat, tensors: map<string, Tensor>)
    requires j < |shards|
  {
    var file := ShardName(j, |shards|);
    Known(Names(shards[j]), tensors) && file in files && IsFile(files[file], json, Names(shards[j]), tensors)
  }

  /** Shard j holds the name, and the index says so. */
  ghost predicate PointsTo(weightMap: map<string, string>, shards: seq<seq<Item>>, j: nat, name: string) {
    && j < |shards| && name in Names(shards[j])
    && name in weightMap && weightMap[name] == ShardName(j, |shards|)
  }

  /** The index points every name at one of the first n shards that holds it. */
  ghost predicate Pointed(weightMap: map<string, string>, shards: seq<seq<Item>>, n: nat)
    requires n <= |shards|
  {
    && (forall j, a :: 0 <= j < n && 0 <= a < |shards[j]| ==> shards[j][a].name in weightMap)
    && forall name :: name in weightMap ==> exists j: nat :: j < n && PointsTo(weightMap, shards, j, name)
  }

  /** One shard of the output loop: write its file, then point the index at it.  It fails exactly when the
      shard's header is too long. */
  method WriteShard(dir: Directory, json: Codec<Header>, shards: seq<seq<Item>>, i: nat, tensors: map<string, Tensor>, weightMap: map<string, string>)
    returns (wm: Option<map<string, string>>)
    requires i < |shards| && Known(Names(shards[i]), tensors) && Pointed(weightMap, shards, i)
    requires forall j :: 0 <= j < i ==> OnDisk(dir.files, json, shards, j, tensors)
    modifies dir
    ensures wm.None? <==> TooLong(json, Names(shards[i]), tensors)
    ensures wm.Some? ==> (forall j :: 0 <= j <= i ==> OnDisk(dir.files, json, shards, j, tensors)) && Pointed(wm.value, shards, i + 1)
    ensures wm.Some? ==> forall f :: f in old(dir.files) && f != ShardName(i, |shards|) ==> f in dir.files && dir.files[f] == old(dir.files)[f]
  {
    hide ShardName, IsFile, TooLong, Known, Pointed;
    var order := Names(shards[i]);
    var file := WriteSafetensors(json, order, tensors);
    if file.None? {
      return None;
    }
    ghost var before := dir.files;
    dir.files := dir.files[ShardName(i, |shards|) := file.value];
    var m := PointAt(weightMap, order, ShardName(i, |shards|));
    forall j | 0 <= j < i ensures OnDisk(dir.files, json, shards, j, tensors) {
      StaysOnDisk(before, file.value, json, shards, i, j, tensors);
    }
    StaysPointed(weightMap, m, shards, i);
    wm := Some(m);
  }

  lemma StaysOnDisk(files: map<string, seq<byte>>, file: seq<byte>, json: Codec<Header>, shards: seq<seq<Item>>, i: nat, j: nat, tensors: map<string, Tensor>)
    requires j < i < |shards| && OnDisk(files, json, shards, j, tensors)
    ensures OnDisk(files[ShardName(i, |shards|) := file], json, shards, j, tensors)
  {
    hide ShardName, IsFile, Known;
    ShardNamesDiffer(i, j, |shards|);
  }

  /** Point every name of a shard at its file. */
  method PointAt(weightMap: map<string, string>, order: seq<string>, file: string) returns (m: map<string, string>)
    ensures m.Keys == weightMap.Keys + Elements(order)
    ensures forall n :: n in m ==> m[n] == if n in order then file else weightMap[n]
  {
    m := weightMap;
    for a := 0 to |order|
      invariant m.Keys == weightMap.Keys + Elements(order[..a])
      invariant forall n :: n in m ==> m[n] == if n in order[..a] then file else weightMap[n]
    {
      m := m[order[a] := file];
      assert order[..a + 1] == order[..a] + [order[a]];
    }
    assert order[..|order|] == order;
  }

  lemma {:induction false} StaysPointed(before: map<string, string>, after: map<string, string>, shards: seq<seq<Item>>, i: nat)
    requires i < |shards| && Pointed(before, shards, i)
    requires after.Keys == before.Keys + Elements(Names(shards[i]))
    requires forall n :: n in after ==> after[n] == if n in Names(shards[i]) then ShardName(i, |shards|) else before[n]
    ensures Pointed(after, shards, i + 1)
  {
    hide ShardName;
    forall name | name in after ensures exists j: nat :: j < i + 1 && PointsTo(after, shards, j, name) {
      if name in Names(shards[i]) {
        assert PointsTo(after, shards, i, name);
      } else {
        var j: nat :| j < i && PointsTo(before, shards, j, name);
        assert PointsTo(after, shards, j, name);
      }
    }
    forall j, a | 0 <= j < i + 1 && 0 <= a < |shards[j]| ensures shards[j][a].name in after {
      if j == i {
        assert Names(shards[i])[a] in Elements(Names(shards[i]));
      }
    }
  }

  // ----- the whole rewrite and reading it back ---------------------------------------------------

  /** The bytes of one tensor of a file. */
  function ReadFile(json: Codec<Header>, file: seq<byte>, name: string): Option<seq<byte>> {
    var h := ReadHeader(json, file);
    if h.None? then None else Load(file, h.value.0, h.value.1, name)
  }

  /** A tensor of a checkpoint directory: through the index, its shard's header and that header's offsets if
      there is an index, else from the single file. */
  function ReadTensor(files: map<string, seq<byte>>, json: Codec<Header>, index: Codec<map<string, string>>, name: string): Option<seq<byte>> {
    if INDEX in files then
      var wm := index.parse(files[INDEX]);
      if wm.None? || name !in wm.value || wm.value[name] !in files then None
      else ReadFile(json, files[wm.value[name]], name)
    else if SINGLE in files then ReadFile(json, files[SINGLE], name)
    else None
  }

  /** Some file the tensors would be written to has a header that is too long. */
  ghost predicate Overlong(json: Codec<Header>, order: seq<string>, tensors: map<string, Tensor>, maxBytes: nat, single: bool)
    requires Known(order, tensors)
  {
    if single then TooLong(json, order, tensors)
    else
      var shards := Greedy(Sizes(order, tensors), maxBytes);
      exists j :: 0 <= j < |shards| && Known(Names(shards[j]), tensors) && TooLong(json, Names(shards[j]), tensors)
  }

  /** name reads back as the tensor written under it; the format's name does not read back. */
  ghost predicate ReadsBack(files: map<string, seq<byte>>, json: Codec<Header>, index: Codec<map<string, string>>, tensors: map<string, Tensor>, name: string) {
    && name in tensors && tensors[name].Valid()
    && ReadTensor(files, json, index, name) == if name == METADATA then None else Some(tensors[name].from.Bytes())
  }

  /** The sharded output: pack, write each shard, write the index. */
  method WriteSharded(dir: Directory, json: Codec<Header>, index: Codec<map<string, string>>, order: seq<string>, tensors: map<string, Tensor>, maxBytes: nat)
    returns (ok: bool)
    requires Known(order, tensors) && Lawful(json) && Lawful(index)
    modifies dir
    ensures ok <==> !Overlong(json, order, tensors, maxBytes, false)
    ensures ok ==> forall n :: n in order ==> ReadsBack(dir.files, json, index, tensors, n)
  {
    hide ShardName, IsFile, Greedy, ReadTensor, Pointed, TooLong;
    var shards := PackShards(Sizes(order, tensors), maxBytes);
    assert Names(Flatten(shards)) == order;
    var wm: map<string, string> := map[];
    NothingPointed(shards);
    for i := 0 to |shards|
      invariant forall j :: 0 <= j < i ==> OnDisk(dir.files, json, shards, j, tensors)
      invariant forall j :: 0 <= j < i ==> Known(Names(shards[j]), tensors) && !TooLong(json, Names(shards[j]), tensors)
      invariant Pointed(wm, shards, i)
    {
      ShardKnown(order, tensors, shards, i);
      var r := WriteShard(dir, json, shards, i, tensors, wm);
      if r.None? {
        return false;
      }
      wm := r.value;
    }
    ghost var files := dir.files;
    dir.files := dir.files[INDEX := index.write(wm)];
    forall n | n in order ensures ReadsBack(dir.files, json, index, tensors, n) {
      var k :| 0 <= k < |order| && order[k] == n;
      var j, a := FlattenFind(shards, k);
      var at := PointedName(wm, shards, j, a);
      ThroughIndex(files, wm, json, index, shards, at, n, tensors);
    }
    ok := true;
  }

  lemma NothingPointed(shards: seq<seq<Item>>)
    ensures Pointed(map[], shards, 0)
  {
  }

  lemma PointedName(wm: map<string, string>, shards: seq<seq<Item>>, j: nat, a: nat) returns (at: nat)
    requires j < |shards| && a < |shards[j]| && Pointed(wm, shards, |shards|)
    ensures at < |shards| && PointsTo(wm, shards, at, shards[j][a].name)
  {
    hide ShardName;
    at :| at < |shards| && PointsTo(wm, shards, at, shards[j][a].name);
  }

  lemma {:induction false} ShardKnown(order: seq<string>, tensors: map<string, Tensor>, shards: seq<seq<Item>>, i: nat)
    requires Known(order, tensors) && Names(Flatten(shards)) == order && i < |shards|
    ensures Known(Names(shards[i]), tensors)
  {
    forall a | 0 <= a < |shards[i]| ensures shards[i][a].name in tensors && tensors[shards[i][a].name].Valid() {
      FlattenHas(shards, i, a);
      var k :| 0 <= k < |Flatten(shards)| && Flatten(shards)[k] == shards[i][a];
      assert order[k] == shards[i][a].name;
    }
  }

  lemma {:induction false} ThroughIndex(files: map<string, seq<byte>>, wm: map<string, string>, json: Codec<Header>, index: Codec<map<string, string>>,
                                        shards: seq<seq<Item>>, j: nat, name: string, tensors: map<string, Tensor>)
    requires j < |shards| && PointsTo(wm, shards, j, name) && OnDisk(files, json, shards, j, tensors) && Lawful(json) && Lawful(index)
    ensures ReadsBack(files[INDEX := index.write(wm)], json, index, tensors, name)
  {
    hide ShardName, IsFile, ReadHeader, Load;
    ShardNamesDiffer(j, j, |shards|);
    assert Inverse(index, wm, 0);
    assert index.write(wm) + seq(0, _ => SPACE) == index.write(wm);
    TensorReadsBack(files[ShardName(j, |shards|)], json, Names(shards[j]), tensors, name);
  }

  /** The single-file output.  It reads back unless the directory still has an index. */
  method WriteSingle(dir: Directory, json: Codec<Header>, ghost index: Codec<map<string, string>>, order: seq<string>, tensors: map<string, Tensor>)
    returns (ok: bool)
    requires Known(order, tensors) && Lawful(json)
    modifies dir
    ensures ok <==> !TooLong(json, order, tensors)
    ensures ok ==> SINGLE in dir.files && dir.files == old(dir.files)[SINGLE := dir.files[SINGLE]]
    ensures ok && INDEX !in old(dir.files) ==> forall n :: n in order ==> ReadsBack(dir.files, json, index, tensors, n)
  {
    hide IsFile, TooLong, ReadHeader, Load;
    var file := WriteSafetensors(json, order, tensors);
    if file.None? {
      return false;
    }
    dir.files := dir.files[SINGLE := file.value];
    if INDEX !in dir.files {
      forall n | n in order ensures ReadsBack(dir.files, json, index, tensors, n) {
        TensorReadsBack(file.value, json, order, tensors, n);
      }
    }
    ok := true;
  }

  /** An index left over from an earlier sharded output hides a single file written beside it: whatever it
      points at other files still reads as before. */
  lemma StaleIndexWins(files: map<string, seq<byte>>, json: Codec<Header>, index: Codec<map<string, string>>, file: seq<byte>, name: string)
    requires INDEX in files
    requires var wm := index.parse(files[INDEX]); wm.Some? && name in wm.value ==> wm.value[name] != SINGLE
    ensures ReadTensor(files[SINGLE := file], json, index, name) == ReadTensor(files, json, index, name)
  {
    hide ReadFile;
  }

  // ----- opening the source --------------------------------------------------------------------

  /** What the source directory offers for a name: the file, its header's word on it and where its data
      starts. */
  datatype Loc = Loc(file: seq<byte>, meta: Meta, base: nat) {
    /** It has offsets to copy from. */
    predicate Copyable() { meta.Entry? }

    /** The file holds the bytes the offsets promise. */
    predicate Valid() { meta.Entry? && meta.lo <= meta.hi && base + meta.hi <= |file| }

    function Bytes(): seq<byte>
      requires Valid()
    {
      file[base + meta.lo..base + meta.hi]
    }
  }

  /** The tensors a directory names: those of the index, or of the single file's header. */
  function SourceNames(files: map<string, seq<byte>>, json: Codec<Header>, index: Codec<map<string, string>>): Option<set<string>> {
    if INDEX in files then
      var wm := index.parse(files[INDEX]);
      if wm.None? then None else Some(wm.value.Keys)
    else if SINGLE in files then
      var h := ReadHeader(json, files[SINGLE]);
      if h.None? then None else Some(h.value.0.Keys - {METADATA})
    else None
  }

  /** Where one of them lies, by a fresh read of its file's header. */
  function Located(files: map<string, seq<byte>>, json: Codec<Header>, index: Codec<map<string, string>>, name: string): Option<Loc> {
    if INDEX in files then
      var wm := index.parse(files[INDEX]);
      if wm.None? || name !in wm.value || wm.value[name] !in files then None
      else InFile(json, files[wm.value[name]], name)
    else if SINGLE in files && name != METADATA then InFile(json, files[SINGLE], name)
    else None
  }

  function InFile(json: Codec<Header>, file: seq<byte>, name: string): Option<Loc> {
    var h := ReadHeader(json, file);
    if h.None? || name !in h.value.0 then None else Some(Loc(file, h.value.0[name], h.value.1))
  }

  /** The directory can be opened: every tensor it names is found. */
  ghost predicate Opens(files: map<string, seq<byte>>, json: Codec<Header>, index: Codec<map<string, string>>) {
    var names := SourceNames(files, json, index);
    names.Some? && forall n :: n in names.value ==> Located(files, json, index, n).Some?
  }

  /** Opening a checkpoint directory, sharded or single-file; each file's header is read once and
      remembered. */
  method OpenSource(files: map<string, seq<byte>>, json: Codec<Header>, index: Codec<map<string, string>>) returns (loc: Option<map<string, Loc>>)
    ensures loc.Some? <==> Opens(files, json, index)
    ensures loc.Some? ==> Some(loc.value.Keys) == SourceNames(files, json, index)
    ensures loc.Some? ==> forall n :: n in loc.value ==> Located(files, json, index, n) == Some(loc.value[n])
  {
    hide ReadHeader, InFile;
    if INDEX in files {
      var wm := index.parse(files[INDEX]);
      if wm.None? {
        return None;
      }
      loc := OpenShards(files, json, wm.value);
    } else if SINGLE in files {
      loc := OpenSingle(files[SINGLE], json);
    } else {
      loc := None;
    }
  }

  method OpenSingle(file: seq<byte>, json: Codec<Header>) returns (loc: Option<map<string, Loc>>)
    ensures loc.Some? <==> ReadHeader(json, file).Some?
    ensures loc.Some? ==> loc.value.Keys == ReadHeader(json, file).value.0.Keys - {METADATA}
    ensures loc.Some? ==> forall n :: n in loc.value ==> InFile(json, file, n) == Some(loc.value[n])
    ensures loc.Some? ==> forall n :: n in ReadHeader(json, file).value.0 ==> InFile(json, file, n).Some?
  {
    hide ReadHeader;
    var h := ReadHeader(json, file);
    if h.None? {
      return None;
    }
    var hdr, base := h.value.0, h.value.1;
    loc := Some(map n | n in hdr.Keys - {METADATA} :: Loc(file, hdr[n], base));
    assert loc.value.Keys == hdr.Keys - {METADATA};
  }

  method OpenShards(files: map<string, seq<byte>>, json: Codec<Header>, wm: map<string, string>) returns (loc: Option<map<string, Loc>>)
    ensures loc.Some? <==> forall n :: n in wm ==> wm[n] in files && InFile(json, files[wm[n]], n).Some?
    ensures loc.Some? ==> loc.value.Keys == wm.Keys && forall n :: n in wm ==> InFile(json, files[wm[n]], n) == Some(loc.value[n])
  {
    hide ReadHeader;
    var hdrs: map<string, (Header, nat)>, m: map<string, Loc>, todo := map[], map[], wm.Keys;
    while todo != {}
      invariant todo <= wm.Keys && m.Keys == wm.Keys - todo
      invariant forall p :: p in hdrs ==> p in files && ReadHeader(json, files[p]) == Some(hdrs[p])
      invariant forall n :: n in m ==> wm[n] in files && InFile(json, files[wm[n]], n) == Some(m[n])
      decreases |todo|
    {
      var name :| name in todo;
      var shard := wm[name];
      if shard !in hdrs {
        if shard !in files {
          return None;
        }
        var h := ReadHeader(json, files[shard]);
        if h.None? {
          return None;
        }
        hdrs := hdrs[shard := h.value];
      }
      if name !in hdrs[shard].0 {
        return None;
      }
      m := m[name := Loc(files[shard], hdrs[shard].0[name], hdrs[shard].1)];
      todo := todo - {name};
    }
    loc := Some(m);
  }

  /** Reading through a location is reading the directory. */
  lemma LocatedReads(files: map<string, seq<byte>>, json: Codec<Header>, index: Codec<map<string, string>>, name: string)
    requires var names := SourceNames(files, json, index); names.Some? && name in names.value
    ensures var l := Located(files, json, index, name);
            ReadTensor(files, json, index, name) == if l.Some? && l.value.Valid() then Some(l.value.Bytes()) else None
  {
    hide ReadHeader;
  }

  // ----- the rewrite ------------------------------------------------------------------------------

  /** A requantised tensor. */
  datatype NewTensor = NewTensor(dtype: string, shape: seq<nat>, b: seq<byte>)

  /** What is written under a name: the new tensor where there is one, else the source's. */
  function Written(n: string, loc: map<string, Loc>, added: map<string, NewTensor>): Tensor
    requires n in added || (n in loc && loc[n].Valid())
  {
    if n in added then Tensor(added[n].dtype, added[n].shape, |added[n].b|, Raw(added[n].b))
    else
      var l := loc[n];
      Tensor(l.meta.dtype, l.meta.shape, l.meta.hi - l.meta.lo, Stream(l.file, l.base + l.meta.lo, l.meta.hi - l.meta.lo))
  }

  /** A name cannot be copied when its header says nothing of offsets. */
  ghost predicate Stuck(n: string, loc: map<string, Loc>, added: map<string, NewTensor>) {
    n !in added && (n in loc ==> !loc[n].Copyable())
  }

  /** Collect what is written under every name; it fails exactly on a name that is neither new nor has
      offsets. */
  method Gather(order: seq<string>, loc: map<string, Loc>, added: map<string, NewTensor>) returns (tensors: Option<map<string, Tensor>>)
    requires forall n :: n in order && n !in added && n in loc && loc[n].Copyable() ==> loc[n].Valid()
    ensures tensors.None? <==> exists n :: n in order && Stuck(n, loc, added)
    ensures tensors.Some? ==> Collected(order, loc, added, tensors.value)
  {
    var m: map<string, Tensor> := map[];
    for i := 0 to |order|
      invariant Collected(order[..i], loc, added, m)
    {
      var n := order[i];
      assert order[..i + 1] == order[..i] + [n];
      if n !in added && (n !in loc || !loc[n].Copyable()) {
        assert Stuck(n, loc, added);
        return None;
      }
      m := m[n := Written(n, loc, added)];
    }
    assert order[..|order|] == order;
    tensors := Some(m);
  }

  ghost predicate Collected(order: seq<string>, loc: map<string, Loc>, added: map<string, NewTensor>, tensors: map<string, Tensor>) {
    && tensors.Keys == Elements(order)
    && forall n :: n in order ==> (n in added || (n in loc && loc[n].Valid())) && tensors[n] == Written(n, loc, added)
  }

  lemma CollectedKnown(order: seq<string>, loc: map<string, Loc>, added: map<string, NewTensor>, tensors: map<string, Tensor>)
    requires Collected(order, loc, added, tensors)
    ensures Known(order, tensors)
    ensures forall n :: n in order ==> tensors[n].from.Bytes() == if n in added then added[n].b else loc[n].Bytes()
  {
  }

  /** The headers of the output would not fit: what Rewrite fails on once the source has been read. */
  ghost predicate OutputOverlong(json: Codec<Header>, order: seq<string>, loc: map<string, Loc>, added: map<string, NewTensor>, maxBytes: nat, single: bool) {
    exists tensors: map<string, Tensor> ::
      Collected(order, loc, added, tensors) && Known(order, tensors) && Overlong(json, order, tensors, maxBytes, single)
  }

  /** What has to hold for the rewrite to go through: the source opens, everything copied has offsets, and
      the output's headers fit. */
  ghost predicate Rewritable(src: map<string, seq<byte>>, json: Codec<Header>, index: Codec<map<string, string>>, names: seq<string>,
                             added: map<string, NewTensor>, maxBytes: nat, single: bool)
  {
    && Opens(src, json, index)
    && var loc := Locations(src, json, index);
    && (forall n :: n in names ==> !Stuck(n, loc, added))
    && !OutputOverlong(json, Order(names, added.Keys), loc, added, maxBytes, single)
  }

  ghost function Locations(src: map<string, seq<byte>>, json: Codec<Header>, index: Codec<map<string, string>>): map<string, Loc>
    requires Opens(src, json, index)
  {
    map n | n in SourceNames(src, json, index).value :: Located(src, json, index, n).value
  }

  /** The source's files hold the bytes their headers promise, for every tensor that is copied. */
  ghost predicate Untruncated(src: map<string, seq<byte>>, json: Codec<Header>, index: Codec<map<string, string>>, names: seq<string>, added: map<string, NewTensor>) {
    forall n :: n in names && n !in added ==>
      var l := Located(src, json, index, n); l.Some? && l.value.Copyable() ==> l.value.Valid()
  }

  /** Every tensor of the output reads as it should: what is not replaced as it does in the source, the rest
      as the new bytes. */
  ghost predicate RoundTrip(src: map<string, seq<byte>>, out: map<string, seq<byte>>, json: Codec<Header>, index: Codec<map<string, string>>,
                            names: seq<string>, added: map<string, NewTensor>)
  {
    && (forall n :: n in names && n !in added && n != METADATA ==>
          ReadTensor(src, json, index, n).Some? && ReadTensor(out, json, index, n) == ReadTensor(src, json, index, n))
    && (forall n :: n in names && n in added && n != METADATA ==> ReadTensor(out, json, index, n) == Some(added[n].b))
    && (forall n :: n in names && BringsScale(n, added.Keys) ==> ReadTensor(out, json, index, n + SCALE) == Some(added[n + SCALE].b))
  }

  /** A tensor that is neither replaced nor a new scale's weight reads from the output as from the source. */
  lemma UntouchedReads(src: map<string, seq<byte>>, out: map<string, seq<byte>>, json: Codec<Header>, index: Codec<map<string, string>>,
                       names: seq<string>, added: map<string, NewTensor>, n: string)
    requires RoundTrip(src, out, json, index, names, added) && n in names && n != METADATA
    ensures n !in added ==> ReadTensor(src, json, index, n).Some? && ReadTensor(out, json, index, n) == ReadTensor(src, json, index, n)
    ensures n in added ==> ReadTensor(out, json, index, n) == Some(added[n].b)
    ensures BringsScale(n, added.Keys) ==> n + SCALE in added && ReadTensor(out, json, index, n + SCALE) == Some(added[n + SCALE].b)
  {
  }

  lemma OrderNames(names: seq<string>, added: map<string, NewTensor>, n: string)
    ensures n in Order(names, added.Keys) && n !in added ==> n in names
    ensures n in names ==> n in Order(names, added.Keys)
    ensures n in names && BringsScale(n, added.Keys) ==> n + SCALE in Order(names, added.Keys)
  {
    hide Order;
    OrderHas(names, added.Keys, n);
    OrderHas(names, added.Keys, n + SCALE);
  }

  lemma OrderStuck(names: seq<string>, loc: map<string, Loc>, added: map<string, NewTensor>)
    ensures (exists n :: n in Order(names, added.Keys) && Stuck(n, loc, added)) <==> exists n :: n in names && Stuck(n, loc, added)
  {
    hide Order;
    if n :| n in Order(names, added.Keys) && Stuck(n, loc, added) {
      OrderNames(names, added, n);
    }
    if n :| n in names && Stuck(n, loc, added) {
      OrderNames(names, added, n);
    }
  }

  lemma OrderCopies(src: map<string, seq<byte>>, json: Codec<Header>, index: Codec<map<string, string>>, names: seq<string>,
                    loc: map<string, Loc>, added: map<string, NewTensor>)
    requires Untruncated(src, json, index, names, added)
    requires forall n :: n in loc ==> Located(src, json, index, n) == Some(loc[n])
    ensures forall n :: n in Order(names, added.Keys) && n !in added && n in loc && loc[n].Copyable() ==> loc[n].Valid()
  {
    hide Order, Located;
    forall n | n in Order(names, added.Keys) && n !in added && n in loc && loc[n].Copyable() ensures loc[n].Valid() {
      OrderNames(names, added, n);
      assert Located(src, json, index, n) == Some(loc[n]);
    }
  }

  lemma OverlongIff(json: Codec<Header>, order: seq<string>, loc: map<string, Loc>, added: map<string, NewTensor>, tensors: map<string, Tensor>,
                    maxBytes: nat, single: bool)
    requires Collected(order, loc, added, tensors) && Known(order, tensors)
    ensures OutputOverlong(json, order, loc, added, maxBytes, single) <==> Overlong(json, order, tensors, maxBytes, single)
    ensures single ==> (Overlong(json, order, tensors, maxBytes, single) <==> TooLong(json, order, tensors))
  {
    hide TooLong, Known, Greedy;
    forall t: map<string, Tensor> | Collected(order, loc, added, t) ensures t == tensors {
      assert t.Keys == tensors.Keys;
    }
  }

  lemma NotMetadata(n: string)
    ensures n + SCALE != METADATA
  {
    var s := n + SCALE;
    assert s[|s| - 1] == 'e' && METADATA[|METADATA| - 1] == '_';
  }

  lemma RoundTripHolds(src: map<string, seq<byte>>, out: map<string, seq<byte>>, json: Codec<Header>, index: Codec<map<string, string>>,
                       names: seq<string>, loc: map<string, Loc>, added: map<string, NewTensor>, tensors: map<string, Tensor>)
    requires var all := SourceNames(src, json, index); all.Some? && Elements(names) == all.value
    requires forall n :: n in loc ==> Located(src, json, index, n) == Some(loc[n])
    requires var order := Order(names, added.Keys);
             && Collected(order, loc, added, tensors) && forall n :: n in order ==> ReadsBack(out, json, index, tensors, n)
    ensures RoundTrip(src, out, json, index, names, added)
  {
    hide Order, ReadTensor, Located, SourceNames;
    CollectedKnown(Order(names, added.Keys), loc, added, tensors);
    forall n | n in names
      ensures n !in added && n != METADATA ==>
                ReadTensor(src, json, index, n).Some? && ReadTensor(out, json, index, n) == ReadTensor(src, json, index, n)
      ensures n in added && n != METADATA ==> ReadTensor(out, json, index, n) == Some(added[n].b)
      ensures BringsScale(n, added.Keys) ==> ReadTensor(out, json, index, n + SCALE) == Some(added[n + SCALE].b)
    {
      OrderNames(names, added, n);
      NotMetadata(n);
      assert n in Elements(names);
      LocatedReads(src, json, index, n);
      assert ReadsBack(out, json, index, tensors, n);
      if BringsScale(n, added.Keys) {
        assert ReadsBack(out, json, index, tensors, n + SCALE);
      }
    }
  }

  /** The rewrite of a directory.  names is the order in which the parsed source lists its tensors.  It goes
      through exactly when it can, and then the checkpoint round trip holds; a single-file output needs a
      directory without an index for that. */
  method Rewrite(src: map<string, seq<byte>>, dir: Directory, json: Codec<Header>, index: Codec<map<string, string>>, names: seq<string>,
                 added: map<string, NewTensor>, maxBytes: nat, single: bool) returns (ok: bool)
    requires Lawful(json) && Lawful(index)
    requires SourceNames(src, json, index).Some? ==> Elements(names) == SourceNames(src, json, index).value
    requires Untruncated(src, json, index, names, added)
    modifies dir
    ensures ok <==> Rewritable(src, json, index, names, added, maxBytes, single)
    ensures ok && (single ==> INDEX !in old(dir.files)) ==> RoundTrip(src, dir.files, json, index, names, added)
  {
    hide Order, ReadTensor, Located, SourceNames, Overlong, Collected, Known, ReadsBack, RoundTrip;
    var found := OpenSource(src, json, index);
    if found.None? {
      return false;
    }
    var loc := found.value;
    assert loc == Locations(src, json, index);
    var order := BuildOrder(names, added.Keys);
    OrderStuck(names, loc, added);
    OrderCopies(src, json, index, names, loc, added);
    var gathered := Gather(order, loc, added);
    if gathered.None? {
      return false;
    }
    var tensors := gathered.value;
    CollectedKnown(order, loc, added, tensors);
    OverlongIff(json, order, loc, added, tensors, maxBytes, single);
    if single {
      ok := WriteSingle(dir, json, index, order, tensors);
    } else {
      ok := WriteSharded(dir, json, index, order, tensors, maxBytes);
    }
    if ok && (single ==> INDEX !in old(dir.files)) {
      RoundTripHolds(src, dir.files, json, index, names, loc, added, tensors);
    }
  }
}
