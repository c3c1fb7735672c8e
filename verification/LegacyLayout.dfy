/** The layout of legacy GGML model files: header, hyperparameters, vocabulary, tensor records. */
module LegacyLayout {
  import opened Wrappers

  type Byte = x: int | 0 <= x < 256
  type Bytes = seq<Byte>

  const U32 := 0x1_0000_0000
  const NAME_LIMIT := 4096
  const ALIGNMENT := 32

  // ---------------------------------------------------------------- integers

  function Le32(n: nat): Bytes {
    [n % 256, n / 256 % 256, n / 65536 % 256, n / 16777216 % 256]
  }

  /** Unpacks four bytes; a slice that is cut short by the end of the data is an error. */
  function ReadU32(data: Bytes, off: nat): (r: Option<nat>)
    ensures r.Some? ==> r.value < U32 && off + 4 <= |data|
  {
    if off + 4 > |data| then None
    else
      Some(data[off] as int + (data[off + 1] as int) * 256 + (data[off + 2] as int) * 65536
           + (data[off + 3] as int) * 16777216)
  }

  function ReadU32s(data: Bytes, off: nat, n: nat): (r: Option<seq<nat>>)
    ensures r.Some? ==> |r.value| == n
    decreases n
  {
    if n == 0 then Some([])
    else
      var first := ReadU32(data, off);
      if first.None? then None
      else
        var rest := ReadU32s(data, off + 4, n - 1);
        if rest.None? then None else Some([first.value] + rest.value)
  }

  /** A slice, which may silently be shorter than asked for. */
  function Slice(data: Bytes, from: nat, to: nat): Bytes
    requires from <= to
  {
    if from >= |data| then [] else if to >= |data| then data[from..] else data[from..to]
  }

  // ---------------------------------------------------------------- header

  datatype Format = GGML | GGMF | GGJT

  datatype Header = Header(format: Format, version: nat)

  const MAGIC_GGML: Bytes := ['l' as int, 'm' as int, 'g' as int, 'g' as int]
  const MAGIC_GGMF: Bytes := ['f' as int, 'm' as int, 'g' as int, 'g' as int]
  const MAGIC_GGJT: Bytes := ['t' as int, 'j' as int, 'g' as int, 'g' as int]

  function HeaderSize(h: Header): nat {
    if h.format == GGML then 4 else 8
  }

  /** GGML files carry no version; GGMF knows version 1 only, GGJT versions 1 to 3. */
  function ReadHeader(data: Bytes, off: nat): Option<Header> {
    var magic := Slice(data, off, off + 4);
    if magic == MAGIC_GGML then Some(Header(GGML, 1))
    else
      var version := ReadU32(data, off + 4);
      if version.None? then None
      else if magic == MAGIC_GGMF && version.value == 1 then Some(Header(GGMF, 1))
      else if magic == MAGIC_GGJT && 1 <= version.value <= 3 then Some(Header(GGJT, version.value))
      else None
  }

  // ---------------------------------------------------------------- hyperparameters

  datatype Hyper = Hyper(nVocab: nat, nEmbd: nat, nMult: nat, nHead: nat, nLayer: nat, nRot: nat, ftype: nat)

  predicate IsFType(f: nat) {
    f <= 4 || 7 <= f <= 18
  }

  function ReadHyper(data: Bytes, off: nat): Option<Hyper> {
    var v := ReadU32s(data, off, 7);
    if v.None? || !IsFType(v.value[6]) then None
    else Some(Hyper(v.value[0], v.value[1], v.value[2], v.value[3], v.value[4], v.value[5], v.value[6]))
  }

  /** Quantized files are convertible only in the format versions whose quantizations still exist. */
  predicate Convertible(h: Header, ftype: nat) {
    if h.format != GGJT || h.version < 2 then ftype <= 1
    else if h.version == 2 then ftype != 2 && ftype != 3 && ftype != 4 && ftype != 7
    else true
  }

  /** The file types a file can have, and those that are converted: unquantized ones from any file; with the
      second version of GGJT those whose blocks have not changed since, and with the third all. */
  lemma ConvertedTypes(h: Header, f: nat)
    ensures IsFType(f) <==> f in {0, 1, 2, 3, 4} + {7, 8, 9, 10, 11, 12, 13, 14, 15, 16, 17, 18}
    ensures IsFType(f) && HeaderOk(h) ==>
              (Convertible(h, f) <==>
                 f in {0, 1} || h == Header(GGJT, 3) ||
                 (h == Header(GGJT, 2) && f in {8, 9, 10, 11, 12, 13, 14, 15, 16, 17, 18}))
  {
  }

  // ---------------------------------------------------------------- vocabulary

  /** A token's text and the four bytes of its score; a file without scores gives 0.0. */
  datatype Item = Item(text: Bytes, score: Bytes)

  const ZERO_SCORE: Bytes := [0, 0, 0, 0]

  datatype Read<T> = Fail | Done(value: T, next: nat)

  function ReadItem(data: Bytes, off: nat, scores: bool): (r: Read<Item>)
    ensures r.Done? ==> off + 4 <= r.next
  {
    var len := ReadU32(data, off);
    if len.None? || len.value >= NAME_LIMIT then Fail
    else
      var text := Slice(data, off + 4, off + 4 + len.value);
      var next := off + 4 + len.value;
      if !scores then Done(Item(text, ZERO_SCORE), next)
      else if next + 4 > |data| then Fail
      else Done(Item(text, data[next..next + 4]), next + 4)
  }

  function ReadItems(data: Bytes, off: nat, n: nat, scores: bool): Read<seq<Item>>
    decreases n
  {
    if n == 0 then Done([], off)
    else
      var first := ReadItem(data, off, scores);
      if first.Fail? then Fail
      else
        var rest := ReadItems(data, first.next, n - 1, scores);
        if rest.Fail? then Fail else Done([first.value] + rest.value, rest.next)
  }

  // ---------------------------------------------------------------- tensors

  datatype TensorInfo = TensorInfo(name: Bytes, dims: seq<nat>, dtype: nat, start: nat, len: nat)

  datatype Quant = Unknown | Quant(block: nat, size: nat)

  /** Block and type size of the quantization types. */
  function QuantOf(dtype: nat): (q: Quant)
    ensures q.Quant? ==> q.block > 0
  {
    match dtype
    case 0 => Quant(1, 4)
    case 1 => Quant(1, 2)
    case 2 => Quant(32, 18)
    case 3 => Quant(32, 20)
    case 6 => Quant(32, 22)
    case 7 => Quant(32, 24)
    case 8 => Quant(32, 34)
    case 9 => Quant(32, 40)
    case 10 => Quant(256, 84)
    case 11 => Quant(256, 110)
    case 12 => Quant(256, 144)
    case 13 => Quant(256, 176)
    case 14 => Quant(256, 210)
    case 15 => Quant(256, 292)
    case 16 => Quant(256, 66)
    case 17 => Quant(256, 74)
    case 18 => Quant(256, 98)
    case 19 => Quant(256, 50)
    case 20 => Quant(32, 18)
    case 21 => Quant(256, 110)
    case 22 => Quant(256, 82)
    case 23 => Quant(256, 136)
    case 24 => Quant(1, 1)
    case 25 => Quant(1, 2)
    case 26 => Quant(1, 4)
    case 27 => Quant(1, 8)
    case 28 => Quant(1, 8)
    case 29 => Quant(256, 56)
    case 30 => Quant(1, 2)
    case 34 => Quant(256, 54)
    case 35 => Quant(256, 66)
    case 39 => Quant(32, 17)
    case 40 => Quant(64, 36)
    case 41 => Quant(128, 18)
    case _ => Unknown
  }

  function Elements(dims: seq<nat>): nat {
    if dims == [] then 1 else dims[0] * Elements(dims[1..])
  }

  function ByteSize(dims: seq<nat>, q: Quant): nat
    requires q.Quant? && q.block > 0
  {
    Elements(dims) * q.size / q.block
  }

  function RoundUp(off: nat): (r: nat)
    ensures off <= r < off + ALIGNMENT && r % ALIGNMENT == 0
  {
    (off + ALIGNMENT - 1) / ALIGNMENT * ALIGNMENT
  }

  function ReadTensor(data: Bytes, off: nat, padding: bool): (r: Read<TensorInfo>)
    ensures r.Done? ==> off + 12 <= r.next
  {
    var head := ReadU32s(data, off, 3);
    if head.None? || head.value[0] > 4 || head.value[1] >= NAME_LIMIT || QuantOf(head.value[2]).Unknown? then Fail
    else
      var n, nameLen, q := head.value[0], head.value[1], QuantOf(head.value[2]);
      var dims := ReadU32s(data, off + 12, n);
      if dims.None? then Fail
      else
        var nameAt := off + 12 + 4 * n;
        var end := nameAt + nameLen;
        var start := if padding then RoundUp(end) else end;
        var len := ByteSize(dims.value, q);
        Done(TensorInfo(Slice(data, nameAt, end), dims.value, head.value[2], start, len), start + len)
  }

  function ReadTensors(data: Bytes, off: nat, padding: bool): Read<seq<TensorInfo>>
    decreases |data| - off
  {
    if off >= |data| then Done([], off)
    else
      var first := ReadTensor(data, off, padding);
      if first.Fail? then Fail
      else
        var rest := ReadTensors(data, first.next, padding);
        if rest.Fail? then Fail else Done([first.value] + rest.value, rest.next)
  }

  /** Later tensors of the same name take over. */
  function IndexOf(ts: seq<TensorInfo>, name: Bytes): (r: Option<nat>)
    ensures r.Some? ==> r.value < |ts| && ts[r.value].name == name
  {
    if ts == [] then None
    else if ts[|ts| - 1].name == name then Some(|ts| - 1)
    else IndexOf(ts[..|ts| - 1], name)
  }

  function Ascii(s: string): Bytes {
    seq(|s|, i requires 0 <= i < |s| => s[i] as int % 256)
  }

  const FF_NAME := Ascii("layers.0.feed_forward.w1.weight")

  /** The feed-forward size, read off the first layer's tensor. */
  function FeedForward(ts: seq<TensorInfo>): Option<nat> {
    var i := IndexOf(ts, FF_NAME);
    if i.None? || |ts[i.value].dims| < 2 then None else Some(ts[i.value].dims[1])
  }

  // ---------------------------------------------------------------- the model

  datatype Model = Model(header: Header, hyper: Hyper, nFF: nat, vocab: seq<Item>, tensors: seq<TensorInfo>)

  function Load(data: Bytes, off: nat): Read<Model> {
    var h := ReadHeader(data, off);
    if h.None? then Fail
    else
      var o1 := off + HeaderSize(h.value);
      var hp := ReadHyper(data, o1);
      if hp.None? || !Convertible(h.value, hp.value.ftype) then Fail
      else
        var vocab := ReadItems(data, o1 + 28, hp.value.nVocab, h.value.format != GGML);
        if vocab.Fail? then Fail
        else
          var ts := ReadTensors(data, vocab.next, h.value.format == GGJT);
          if ts.Fail? then Fail
          else
            var ff := FeedForward(ts.value);
            if ff.None? then Fail
            else Done(Model(h.value, hp.value, ff.value, vocab.value, ts.value), ts.next)
  }

  class GGMLModel {
    var header: Header
    var hyper: Hyper
    var nFF: nat
    var vocab: seq<Item>
    var tensors: seq<TensorInfo>
    var tensorMap: map<Bytes, nat>

    constructor ()
    {
      header, hyper, nFF := Header(GGML, 1), Hyper(0, 0, 0, 0, 0, 0, 0), 0;
      vocab, tensors, tensorMap := [], [], map[];
    }

    /** Reads the vocabulary item by item. */
    method LoadVocab(data: Bytes, off: nat, n: nat, scores: bool) returns (ok: bool, next: nat)
      modifies this`vocab
      ensures ok == ReadItems(data, off, n, scores).Done?
      ensures ok ==> ReadItems(data, off, n, scores) == Done(vocab, next)
    {
      vocab, next := [], off;
      ghost var goal := ReadItems(data, off, n, scores);
      Prepend([], goal);
      for i := 0 to n
        invariant After(vocab, ReadItems(data, next, n - i, scores)) == goal
      {
        var item := ReadItem(data, next, scores);
        if item.Fail? {
          return false, next;
        }
        AfterStep(vocab, item.value, ReadItems(data, item.next, n - i - 1, scores));
        vocab := vocab + [item.value];
        next := item.next;
      }
      assert vocab + [] == vocab;
      ok := true;
    }

    /** Reads tensor records until the data is used up. */
    method LoadTensors(data: Bytes, off: nat, padding: bool) returns (ok: bool, next: nat)
      modifies this`tensors, this`tensorMap
      ensures ok == ReadTensors(data, off, padding).Done?
      ensures ok ==> ReadTensors(data, off, padding) == Done(tensors, next)
      ensures ok ==> forall name :: name in tensorMap <==> IndexOf(tensors, name).Some?
      ensures ok ==> forall name | name in tensorMap :: tensorMap[name] == IndexOf(tensors, name).value
    {
      hide ReadTensor;
      tensors, tensorMap, next := [], map[], off;
      ghost var goal := ReadTensors(data, off, padding);
      Prepend([], goal);
      while next < |data|
        invariant After(tensors, ReadTensors(data, next, padding)) == goal
        invariant forall name :: name in tensorMap <==> IndexOf(tensors, name).Some?
        invariant forall name | name in tensorMap :: tensorMap[name] == IndexOf(tensors, name).value
        decreases |data| - next
      {
        var t := ReadTensor(data, next, padding);
        if t.Fail? {
          return false, next;
        }
        AfterStep(tensors, t.value, ReadTensors(data, t.next, padding));
        assert (tensors + [t.value])[..|tensors|] == tensors;
        tensorMap := tensorMap[t.value.name := |tensors|];
        tensors := tensors + [t.value];
        next := t.next;
      }
      assert tensors + [] == tensors;
      ok := true;
    }

    method LoadModel(data: Bytes, off: nat) returns (ok: bool, next: nat)
      modifies this
      ensures ok == Load(data, off).Done?
      ensures ok ==> Load(data, off) == Done(Model(header, hyper, nFF, vocab, tensors), next)
    {
      hide ReadHeader, ReadHyper, ReadItems, ReadTensors, IndexOf;
      next := off;
      var h := ReadHeader(data, next);
      if h.None? { return false, next; }
      header := h.value;
      next := next + HeaderSize(header);
      var hp := ReadHyper(data, next);
      if hp.None? || !Convertible(header, hp.value.ftype) { return false, next; }
      hyper := hp.value;
      next := next + 28;
      ok, next := LoadVocab(data, next, hyper.nVocab, header.format != GGML);
      if !ok { return; }
      ok, next := LoadTensors(data, next, header.format == GGJT);
      if !ok { return; }
      if FF_NAME !in tensorMap || |tensors[tensorMap[FF_NAME]].dims| < 2 { return false, next; }
      nFF := tensors[tensorMap[FF_NAME]].dims[1];
    }
  }

  function After<T>(done: seq<T>, r: Read<seq<T>>): Read<seq<T>> {
    if r.Fail? then Fail else Done(done + r.value, r.next)
  }

  lemma Prepend<T>(done: seq<T>, r: Read<seq<T>>)
    requires done == []
    ensures After(done, r) == r
  {
    if r.Done? { assert done + r.value == r.value; }
  }

  lemma AfterStep<T>(done: seq<T>, v: T, rest: Read<seq<T>>)
    ensures After(done, if rest.Fail? then Fail else Done([v] + rest.value, rest.next)) == After(done + [v], rest)
  {
    if rest.Done? { assert done + ([v] + rest.value) == done + [v] + rest.value; }
  }

  // ---------------------------------------------------------------- bytes and fields

  /** Integers are little-endian: byte k is digit k of the number to base 256. */
  lemma LittleEndian(data: Bytes, off: nat)
    ensures ReadU32(data, off).Some? <==> off + 4 <= |data|
    ensures ReadU32(data, off).Some? ==>
              var n := ReadU32(data, off).value;
              data[off] as int == n % 256 && data[off + 1] as int == n / 256 % 256 &&
              data[off + 2] as int == n / 65536 % 256 && data[off + 3] as int == n / 16777216
  {
    if off + 4 <= |data| {
      var n := ReadU32(data, off).value;
      var b1, b2, b3 := data[off + 1] as int, data[off + 2] as int, data[off + 3] as int;
      assert n / 256 == b1 + 256 * (b2 + 256 * b3);
      assert n / 65536 == b2 + 256 * b3;
    }
  }

  lemma {:induction false} NumbersAt(data: Bytes, off: nat, n: nat, i: nat)
    requires i < n && ReadU32s(data, off, n).Some?
    ensures ReadU32(data, off + 4 * i) == Some(ReadU32s(data, off, n).value[i])
    decreases n
  {
    hide ReadU32;
    if i > 0 { NumbersAt(data, off + 4, n - 1, i - 1); }
  }

  /** Every hyperparameter stands in its own place behind the header. */
  lemma HyperFields(data: Bytes, off: nat)
    requires ReadHyper(data, off).Some?
    ensures var hp := ReadHyper(data, off).value;
            && ReadU32(data, off) == Some(hp.nVocab) && ReadU32(data, off + 4) == Some(hp.nEmbd)
            && ReadU32(data, off + 8) == Some(hp.nMult) && ReadU32(data, off + 12) == Some(hp.nHead)
            && ReadU32(data, off + 16) == Some(hp.nLayer) && ReadU32(data, off + 20) == Some(hp.nRot)
            && ReadU32(data, off + 24) == Some(hp.ftype)
  {
    hide ReadU32, ReadU32s;
    NumbersAt(data, off, 7, 0);
    NumbersAt(data, off, 7, 1);
    NumbersAt(data, off, 7, 2);
    NumbersAt(data, off, 7, 3);
    NumbersAt(data, off, 7, 4);
    NumbersAt(data, off, 7, 5);
    NumbersAt(data, off, 7, 6);
  }

  /** A tensor record's fields, each in its place: three numbers, the dimensions, the name, and the
      payload behind the padding. */
  lemma RecordFields(data: Bytes, off: nat, padding: bool)
    requires ReadTensor(data, off, padding).Done?
    ensures var t := ReadTensor(data, off, padding).value;
            var nameLen := ReadU32(data, off + 4);
            && ReadU32(data, off) == Some(|t.dims|) && |t.dims| <= 4
            && nameLen.Some? && nameLen.value < NAME_LIMIT
            && ReadU32(data, off + 8) == Some(t.dtype)
            && (forall i | 0 <= i < |t.dims| :: ReadU32(data, off + 12 + 4 * i) == Some(t.dims[i]))
            && var nameAt := off + 12 + 4 * |t.dims|;
               && t.name == Slice(data, nameAt, nameAt + nameLen.value)
               && nameAt + nameLen.value <= t.start
               && (if padding then t.start % 32 == 0 && t.start < nameAt + nameLen.value + 32
                   else t.start == nameAt + nameLen.value)
  {
    hide ReadU32, ReadU32s, QuantOf, Slice, ByteSize;
    NumbersAt(data, off, 3, 0);
    NumbersAt(data, off, 3, 1);
    NumbersAt(data, off, 3, 2);
    var dims := ReadTensor(data, off, padding).value.dims;
    forall i | 0 <= i < |dims|
      ensures ReadU32(data, off + 12 + 4 * i) == Some(dims[i])
    {
      NumbersAt(data, off + 12, |dims|, i);
    }
  }

  /** A record is refused only for what it says of itself, or for want of its fixed part. */
  lemma RecordReadIff(data: Bytes, off: nat, padding: bool)
    ensures var dims, nameLen, dtype := ReadU32(data, off), ReadU32(data, off + 4), ReadU32(data, off + 8);
            ReadTensor(data, off, padding).Done? <==>
              && dtype.Some? && dims.value <= 4 && nameLen.value < 4096 && QuantOf(dtype.value).Quant?
              && off + 12 + 4 * dims.value <= |data|
  {
    hide QuantOf, ByteSize, Slice, RoundUp, ReadU32s;
    NumbersIff(data, off, 3);
    if ReadU32s(data, off, 3).Some? {
      NumbersAt(data, off, 3, 0);
      NumbersAt(data, off, 3, 1);
      NumbersAt(data, off, 3, 2);
      NumbersIff(data, off + 12, ReadU32(data, off).value);
    }
  }

  lemma {:induction false} NumbersIff(data: Bytes, off: nat, n: nat)
    ensures ReadU32s(data, off, n).Some? <==> n == 0 || off + 4 * n <= |data|
    decreases n
  {
    if n > 0 { NumbersIff(data, off + 4, n - 1); }
  }

  /** The same for a word of the vocabulary: its length is limited, and its score must be there; a text cut
      short by the end of the data is taken as it is where there are no scores. */
  lemma ItemReadIff(data: Bytes, off: nat, scores: bool)
    ensures var len := ReadU32(data, off);
            ReadItem(data, off, scores).Done? <==>
              len.Some? && len.value < 4096 && (scores ==> off + 4 + len.value + 4 <= |data|)
    ensures ReadItem(data, off, scores).Done? ==>
              var item, len := ReadItem(data, off, scores).value, ReadU32(data, off).value;
              && item.text == Slice(data, off + 4, off + 4 + len)
              && item.score == (if scores then data[off + 4 + len..off + 4 + len + 4] else [0, 0, 0, 0])
              && ReadItem(data, off, scores).next == off + 4 + len + if scores then 4 else 0
  {
    hide ReadU32, Slice;
  }

  lemma HyperReadIff(data: Bytes, off: nat)
    ensures ReadHyper(data, off).Some? <==> off + 28 <= |data| && IsFType(ReadU32(data, off + 24).value)
  {
    hide ReadU32s;
    NumbersIff(data, off, 7);
    if ReadU32s(data, off, 7).Some? { NumbersAt(data, off, 7, 6); }
  }

  /** A header is one of three four-letter words, with the versions that exist. */
  lemma HeaderReadIff(data: Bytes, off: nat, h: Header)
    ensures var word := Slice(data, off, off + 4);
            ReadHeader(data, off) == Some(h) <==>
              match h.format
              case GGML => word == Ascii("lmgg") && h.version == 1
              case GGMF => word == Ascii("fmgg") && h.version == 1 && ReadU32(data, off + 4) == Some(1)
              case GGJT => word == Ascii("tjgg") && h.version in {1, 2, 3} && ReadU32(data, off + 4) == Some(h.version)
  {
    hide ReadU32, Slice;
    assert Ascii("lmgg") == MAGIC_GGML && Ascii("fmgg") == MAGIC_GGMF && Ascii("tjgg") == MAGIC_GGJT;
    assert MAGIC_GGML[0] != MAGIC_GGMF[0] && MAGIC_GGML[0] != MAGIC_GGJT[0] && MAGIC_GGMF[0] != MAGIC_GGJT[0];
  }

  /** The block formats: so many bits for each weight, and so many bytes for the block's scales. */
  lemma BlockSizes(dtype: nat, bits: nat, scales: nat)
    requires (dtype, bits, scales) in {(2, 4, 2), (3, 4, 4), (6, 5, 2), (7, 5, 4), (8, 8, 2), (9, 8, 8)} +
                                      {(10, 2, 20), (11, 3, 14), (12, 4, 16), (13, 5, 16), (14, 6, 18), (15, 8, 36)}
    ensures var block := if dtype < 10 then 32 else 256; QuantOf(dtype) == Quant(block, block * bits / 8 + scales)
    ensures QuantOf(0) == Quant(1, 4) && QuantOf(1) == Quant(1, 2) && QuantOf(4).Unknown? && QuantOf(5).Unknown?
  {
  }

  // ---------------------------------------------------------------- payload ranges

  /** The tensors' payloads come in file order and do not overlap; they are aligned in padded files. */
  predicate WellLaid(ts: seq<TensorInfo>, from: nat, padding: bool) {
    && (forall i | 0 <= i < |ts| :: from + 12 <= ts[i].start && (padding ==> ts[i].start % ALIGNMENT == 0))
    && (forall i, j | 0 <= i < j < |ts| :: ts[i].start + ts[i].len + 12 <= ts[j].start)
  }

  lemma {:induction false} TensorsAreWellLaid(data: Bytes, off: nat, padding: bool)
    requires ReadTensors(data, off, padding).Done?
    ensures var r := ReadTensors(data, off, padding);
            && WellLaid(r.value, off, padding)
            && (forall i | 0 <= i < |r.value| :: r.value[i].start + r.value[i].len <= r.next)
            && r.next >= |data|
    decreases |data| - off
  {
    hide QuantOf, ReadU32s, RoundUp;
    if off < |data| {
      var first := ReadTensor(data, off, padding);
      TensorsAreWellLaid(data, first.next, padding);
      var ts, rest := ReadTensors(data, off, padding).value, ReadTensors(data, first.next, padding).value;
      assert ts == [first.value] + rest;
      assert padding ==> first.value.start % ALIGNMENT == 0;
      forall i | 0 <= i < |ts|
        ensures off + 12 <= ts[i].start && (padding ==> ts[i].start % ALIGNMENT == 0)
        ensures ts[i].start + ts[i].len <= ReadTensors(data, off, padding).next
      {
        if i > 0 { assert ts[i] == rest[i - 1]; }
      }
      forall i, j | 0 <= i < j < |ts|
        ensures ts[i].start + ts[i].len + 12 <= ts[j].start
      {
        assert ts[j] == rest[j - 1];
        if i > 0 { assert ts[i] == rest[i - 1]; }
      }
    }
  }

  /** In every file that loads, payload ranges are ascending and disjoint, and 32-aligned in GGJT files. */
  lemma LoadedPayloads(data: Bytes, off: nat)
    requires Load(data, off).Done?
    ensures var m := Load(data, off).value;
            && WellLaid(m.tensors, off, m.header.format == GGJT)
            && Load(data, off).next >= |data|
  {
    hide ReadHeader, ReadHyper, ReadItems, ReadTensors, FeedForward;
    var h := ReadHeader(data, off).value;
    var hp := ReadHyper(data, off + HeaderSize(h)).value;
    var at := off + HeaderSize(h) + 28;
    ItemsAdvance(data, at, hp.nVocab, h.format != GGML);
    TensorsAreWellLaid(data, ReadItems(data, at, hp.nVocab, h.format != GGML).next, h.format == GGJT);
  }

  lemma {:induction false} ItemsAdvance(data: Bytes, off: nat, n: nat, scores: bool)
    requires ReadItems(data, off, n, scores).Done?
    ensures off <= ReadItems(data, off, n, scores).next
    decreases n
  {
    if n > 0 { ItemsAdvance(data, ReadItem(data, off, scores).next, n - 1, scores); }
  }

  // ---------------------------------------------------------------- writing the layout

  /** A tensor as it is to be written: its record and its payload. */
  datatype Source = Source(name: Bytes, dims: seq<nat>, dtype: nat, payload: Bytes)

  function WriteU32s(vs: seq<nat>): Bytes {
    if vs == [] then [] else Le32(vs[0]) + WriteU32s(vs[1..])
  }

  function WriteHeader(h: Header): Bytes {
    match h.format
    case GGML => MAGIC_GGML
    case GGMF => MAGIC_GGMF + Le32(h.version)
    case GGJT => MAGIC_GGJT + Le32(h.version)
  }

  function HyperValues(hp: Hyper): seq<nat> {
    [hp.nVocab, hp.nEmbd, hp.nMult, hp.nHead, hp.nLayer, hp.nRot, hp.ftype]
  }

  function WriteItem(it: Item, scores: bool): Bytes {
    Le32(|it.text|) + it.text + if scores then it.score else []
  }

  function WriteItems(items: seq<Item>, scores: bool): Bytes {
    if items == [] then [] else WriteItem(items[0], scores) + WriteItems(items[1..], scores)
  }

  function Zeros(n: nat): (r: Bytes)
    ensures |r| == n
  {
    seq(n, _ => 0)
  }

  function WriteRecord(t: Source): Bytes {
    WriteU32s([|t.dims|, |t.name|, t.dtype]) + WriteU32s(t.dims) + t.name
  }

  function WriteTensor(t: Source, off: nat, padding: bool): Bytes {
    var end := off + |WriteRecord(t)|;
    WriteRecord(t) + (if padding then Zeros(RoundUp(end) - end) else []) + t.payload
  }

  function WriteTensors(ts: seq<Source>, off: nat, padding: bool): Bytes {
    if ts == [] then []
    else
      var first := WriteTensor(ts[0], off, padding);
      first + WriteTensors(ts[1..], off + |first|, padding)
  }

  function Write(h: Header, hp: Hyper, vocab: seq<Item>, ts: seq<Source>): Bytes {
    var front := WriteHeader(h) + WriteU32s(HyperValues(hp)) + WriteItems(vocab, h.format != GGML);
    front + WriteTensors(ts, |front|, h.format == GGJT)
  }

  /** What a table must be for the layout to be able to express it. */
  predicate ItemOk(it: Item, scores: bool) {
    |it.text| < NAME_LIMIT && |it.score| == 4 && (!scores ==> it.score == ZERO_SCORE)
  }

  predicate SourceOk(t: Source) {
    && |t.dims| <= 4 && (forall i | 0 <= i < |t.dims| :: t.dims[i] < U32)
    && |t.name| < NAME_LIMIT && t.dtype < U32 && QuantOf(t.dtype).Quant?
    && |t.payload| == ByteSize(t.dims, QuantOf(t.dtype))
  }

  predicate HeaderOk(h: Header) {
    if h.format == GGJT then 1 <= h.version <= 3 else h.version == 1
  }

  predicate HyperOk(hp: Hyper) {
    IsFType(hp.ftype) && forall i | 0 <= i < 7 :: HyperValues(hp)[i] < U32
  }

  /** The table a reader should find: the records with the places of their payloads. */
  function InfoOf(t: Source, off: nat, padding: bool): TensorInfo {
    var end := off + |WriteRecord(t)|;
    TensorInfo(t.name, t.dims, t.dtype, if padding then RoundUp(end) else end, |t.payload|)
  }

  function InfosOf(ts: seq<Source>, off: nat, padding: bool): seq<TensorInfo> {
    if ts == [] then []
    else [InfoOf(ts[0], off, padding)] + InfosOf(ts[1..], off + |WriteTensor(ts[0], off, padding)|, padding)
  }

  /** The bytes stand in the data from the offset on. */
  predicate Holds(data: Bytes, off: nat, b: Bytes) {
    off + |b| <= |data| && data[off..off + |b|] == b
  }

  lemma HoldsSplit(data: Bytes, off: nat, a: Bytes, b: Bytes)
    requires Holds(data, off, a + b)
    ensures Holds(data, off, a) && Holds(data, off + |a|, b)
  {
    var whole := data[off..off + |a + b|];
    assert data[off..off + |a|] == whole[..|a|] == a;
    assert data[off + |a|..off + |a| + |b|] == whole[|a|..] == b;
  }

  lemma SliceHeld(data: Bytes, off: nat, b: Bytes)
    requires Holds(data, off, b)
    ensures Slice(data, off, off + |b|) == b
  {
  }

  lemma ReadLe32(data: Bytes, off: nat, n: nat)
    requires n < U32 && Holds(data, off, Le32(n))
    ensures ReadU32(data, off) == Some(n)
  {
    var b := data[off..off + 4];
    assert b[0] == data[off] && b[1] == data[off + 1] && b[2] == data[off + 2] && b[3] == data[off + 3];
    Base256(n);
  }

  lemma Base256(n: nat)
    requires n < U32
    ensures n == n % 256 + n / 256 % 256 * 256 + n / 65536 % 256 * 65536 + n / 16777216 % 256 * 16777216
  {
    assert n / 65536 == n / 256 / 256 && n / 16777216 == n / 256 / 256 / 256;
  }

  lemma {:induction false} ReadWritten(data: Bytes, off: nat, vs: seq<nat>)
    requires Holds(data, off, WriteU32s(vs)) && forall i | 0 <= i < |vs| :: vs[i] < U32
    ensures ReadU32s(data, off, |vs|) == Some(vs) && |WriteU32s(vs)| == 4 * |vs|
    decreases |vs|
  {
    hide Holds, ReadU32, Le32;
    if vs != [] {
      HoldsSplit(data, off, Le32(vs[0]), WriteU32s(vs[1..]));
      assert |Le32(vs[0])| == 4 by { FourBytes(vs[0]); }
      ReadLe32(data, off, vs[0]);
      ReadWritten(data, off + 4, vs[1..]);
      assert [vs[0]] + vs[1..] == vs;
    }
  }

  lemma FourBytes(n: nat)
    ensures |Le32(n)| == 4
  {
  }

  lemma ReadWrittenHeader(data: Bytes, off: nat, h: Header)
    requires HeaderOk(h) && Holds(data, off, WriteHeader(h))
    ensures ReadHeader(data, off) == Some(h) && |WriteHeader(h)| == HeaderSize(h)
  {
    hide ReadU32, Holds, Slice;
    FourBytes(h.version);
    var magic := if h.format == GGMF then MAGIC_GGMF else if h.format == GGJT then MAGIC_GGJT else MAGIC_GGML;
    if h.format == GGML {
      SliceHeld(data, off, MAGIC_GGML);
    } else {
      HoldsSplit(data, off, magic, Le32(h.version));
      SliceHeld(data, off, magic);
      ReadLe32(data, off + 4, h.version);
    }
    assert MAGIC_GGML[0] != MAGIC_GGMF[0] && MAGIC_GGML[0] != MAGIC_GGJT[0] && MAGIC_GGMF[0] != MAGIC_GGJT[0];
  }

  lemma ReadWrittenItem(data: Bytes, off: nat, it: Item, scores: bool)
    requires ItemOk(it, scores) && Holds(data, off, WriteItem(it, scores))
    ensures ReadItem(data, off, scores) == Done(it, off + |WriteItem(it, scores)|)
  {
    hide ReadU32, Le32, Slice;
    FourBytes(|it.text|);
    var score := if scores then it.score else [];
    HoldsSplit(data, off, Le32(|it.text|) + it.text, score);
    HoldsSplit(data, off, Le32(|it.text|), it.text);
    ReadLe32(data, off, |it.text|);
    SliceHeld(data, off + 4, it.text);
  }

  lemma {:induction false} ReadWrittenItems(data: Bytes, off: nat, items: seq<Item>, scores: bool)
    requires Holds(data, off, WriteItems(items, scores)) && forall i | 0 <= i < |items| :: ItemOk(items[i], scores)
    ensures ReadItems(data, off, |items|, scores) == Done(items, off + |WriteItems(items, scores)|)
    decreases |items|
  {
    hide Holds, WriteItem, ReadItem, ItemOk;
    if items != [] {
      var first := WriteItem(items[0], scores);
      HoldsSplit(data, off, first, WriteItems(items[1..], scores));
      ReadWrittenItem(data, off, items[0], scores);
      ReadWrittenItems(data, off + |first|, items[1..], scores);
      assert [items[0]] + items[1..] == items;
    }
  }

  lemma RecordSize(t: Source)
    requires SourceOk(t)
    ensures |WriteU32s([|t.dims|, |t.name|, t.dtype])| == 12 && |WriteU32s(t.dims)| == 4 * |t.dims|
    ensures |WriteRecord(t)| == 12 + 4 * |t.dims| + |t.name|
  {
    SizeOfU32s([|t.dims|, |t.name|, t.dtype]);
    SizeOfU32s(t.dims);
  }

  lemma {:induction false} SizeOfU32s(vs: seq<nat>)
    ensures |WriteU32s(vs)| == 4 * |vs|
  {
    if vs != [] { SizeOfU32s(vs[1..]); }
  }

  lemma ReadWrittenTensor(data: Bytes, off: nat, t: Source, padding: bool)
    requires SourceOk(t) && Holds(data, off, WriteTensor(t, off, padding))
    ensures ReadTensor(data, off, padding) == Done(InfoOf(t, off, padding), off + |WriteTensor(t, off, padding)|)
    ensures Holds(data, InfoOf(t, off, padding).start, t.payload)
  {
    hide Holds, QuantOf, WriteU32s, ReadU32s, ByteSize, Slice;
    var end := off + |WriteRecord(t)|;
    var pad := if padding then Zeros(RoundUp(end) - end) else [];
    var head := [|t.dims|, |t.name|, t.dtype];
    RecordSize(t);
    HoldsSplit(data, off, WriteRecord(t) + pad, t.payload);
    HoldsSplit(data, off, WriteRecord(t), pad);
    HoldsSplit(data, off, WriteU32s(head) + WriteU32s(t.dims), t.name);
    HoldsSplit(data, off, WriteU32s(head), WriteU32s(t.dims));
    ReadWritten(data, off, head);
    ReadWritten(data, off + 12, t.dims);
    SliceHeld(data, off + 12 + 4 * |t.dims|, t.name);
  }

  /** The payload of every tensor stands where the table says. */
  predicate PayloadsHeld(data: Bytes, infos: seq<TensorInfo>, ts: seq<Source>) {
    |infos| == |ts| && forall i | 0 <= i < |ts| :: Holds(data, infos[i].start, ts[i].payload) && infos[i].len == |ts[i].payload|
  }

  lemma {:induction false} ReadWrittenTensors(data: Bytes, off: nat, ts: seq<Source>, padding: bool)
    requires Holds(data, off, WriteTensors(ts, off, padding)) && off + |WriteTensors(ts, off, padding)| == |data|
    requires forall i | 0 <= i < |ts| :: SourceOk(ts[i])
    ensures ReadTensors(data, off, padding) == Done(InfosOf(ts, off, padding), |data|)
    ensures PayloadsHeld(data, InfosOf(ts, off, padding), ts)
    decreases |ts|
  {
    hide Holds, WriteTensor, ReadTensor, SourceOk, InfoOf;
    if ts != [] {
      var first := WriteTensor(ts[0], off, padding);
      var info := InfoOf(ts[0], off, padding);
      HoldsSplit(data, off, first, WriteTensors(ts[1..], off + |first|, padding));
      ReadWrittenTensor(data, off, ts[0], padding);
      assert |first| > 0 && info.len == |ts[0].payload| by { RecordNotEmpty(ts[0], off, padding); }
      ReadWrittenTensors(data, off + |first|, ts[1..], padding);
      var infos, rest := InfosOf(ts, off, padding), InfosOf(ts[1..], off + |first|, padding);
      assert infos == [info] + rest;
      forall i | 0 <= i < |ts|
        ensures Holds(data, infos[i].start, ts[i].payload) && infos[i].len == |ts[i].payload|
      {
        if i > 0 { assert infos[i] == rest[i - 1] && ts[i] == ts[1..][i - 1]; }
      }
    }
  }

  lemma RecordNotEmpty(t: Source, off: nat, padding: bool)
    requires SourceOk(t)
    ensures |WriteTensor(t, off, padding)| > 0 && InfoOf(t, off, padding).len == |t.payload|
  {
    hide WriteU32s;
    RecordSize(t);
  }

  lemma LoadOfWritten(h: Header, hp: Hyper, vocab: seq<Item>, ts: seq<Source>)
    requires HeaderOk(h) && HyperOk(hp) && Convertible(h, hp.ftype) && |vocab| == hp.nVocab
    requires forall i | 0 <= i < |vocab| :: ItemOk(vocab[i], h.format != GGML)
    requires forall i | 0 <= i < |ts| :: SourceOk(ts[i])
    ensures var data := Write(h, hp, vocab, ts);
            var front := HeaderSize(h) + 28 + |WriteItems(vocab, h.format != GGML)|;
            var infos := InfosOf(ts, front, h.format == GGJT);
            && PayloadsHeld(data, infos, ts)
            && (FeedForward(infos).Some? ==>
                  Load(data, 0) == Done(Model(h, hp, FeedForward(infos).value, vocab, infos), |data|))
            && (FeedForward(infos).None? ==> Load(data, 0) == Fail)
  {
    hide Holds, WriteHeader, WriteItems, WriteTensors, ReadHeader, ReadItems, ReadTensors, FeedForward, InfosOf;
    hide SourceOk, ItemOk, WriteU32s, ReadU32s, Convertible, PayloadsHeld;
    var data := Write(h, hp, vocab, ts);
    var a, b, c := WriteHeader(h), WriteU32s(HyperValues(hp)), WriteItems(vocab, h.format != GGML);
    var d := WriteTensors(ts, |a + b + c|, h.format == GGJT);
    assert Holds(data, 0, data) by { HoldsAll(data); }
    HoldsSplit(data, 0, a + b + c, d);
    HoldsSplit(data, 0, a + b, c);
    HoldsSplit(data, 0, a, b);
    ReadWrittenHeader(data, 0, h);
    ReadWritten(data, |a|, HyperValues(hp));
    ReadWrittenItems(data, |a| + 28, vocab, h.format != GGML);
    ReadWrittenTensors(data, |a + b + c|, ts, h.format == GGJT);
  }

  /** The table describes the sources, one by one. */
  predicate Describes(infos: seq<TensorInfo>, ts: seq<Source>) {
    |infos| == |ts| && forall i | 0 <= i < |ts| ::
      infos[i].name == ts[i].name && infos[i].dims == ts[i].dims && infos[i].dtype == ts[i].dtype
  }

  lemma {:induction false} InfosDescribe(ts: seq<Source>, off: nat, padding: bool)
    ensures Describes(InfosOf(ts, off, padding), ts)
    decreases |ts|
  {
    hide WriteTensor;
    if ts != [] {
      var next := off + |WriteTensor(ts[0], off, padding)|;
      InfosDescribe(ts[1..], next, padding);
      var infos, rest := InfosOf(ts, off, padding), InfosOf(ts[1..], next, padding);
      assert infos == [InfoOf(ts[0], off, padding)] + rest;
      assert forall i | 0 < i < |ts| :: infos[i] == rest[i - 1] && ts[i] == ts[1..][i - 1];
    }
  }

  /** The source whose second dimension is the feed-forward size: the last one of that name. */
  predicate IsFeedForward(ts: seq<Source>, i: nat)
    requires i < |ts|
  {
    ts[i].name == FF_NAME && forall j | i < j < |ts| :: ts[j].name != FF_NAME
  }

  lemma {:induction false} IndexOfLast(ts: seq<TensorInfo>, name: Bytes)
    ensures match IndexOf(ts, name)
            case Some(i) => forall j | i < j < |ts| :: ts[j].name != name
            case None => forall j | 0 <= j < |ts| :: ts[j].name != name
  {
    if ts != [] && ts[|ts| - 1].name != name {
      IndexOfLast(ts[..|ts| - 1], name);
      assert forall j | 0 <= j < |ts| - 1 :: ts[j] == ts[..|ts| - 1][j];
    }
  }

  lemma FeedForwardOf(infos: seq<TensorInfo>, ts: seq<Source>)
    requires Describes(infos, ts)
    ensures forall i: nat | i < |ts| && IsFeedForward(ts, i) ::
              FeedForward(infos) == if |ts[i].dims| < 2 then None else Some(ts[i].dims[1])
    ensures (forall i: nat | i < |ts| :: !IsFeedForward(ts, i)) ==> FeedForward(infos).None?
  {
    hide IndexOf;
    IndexOfLast(infos, FF_NAME);
    var k := IndexOf(infos, FF_NAME);
    if k.Some? {
      assert IsFeedForward(ts, k.value);
      forall i: nat | i < |ts| && IsFeedForward(ts, i) ensures i == k.value {}
    }
  }

  /** Writing any table in this layout and loading it returns the same table, stops exactly at the end
      of the file, finds every payload where the table says, and takes the feed-forward size from the
      last source of that name; without such a source, or with too few dimensions, loading fails. */
  lemma LoadOfWrite(h: Header, hp: Hyper, vocab: seq<Item>, ts: seq<Source>)
    requires HeaderOk(h) && HyperOk(hp) && Convertible(h, hp.ftype) && |vocab| == hp.nVocab
    requires forall i | 0 <= i < |vocab| :: ItemOk(vocab[i], h.format != GGML)
    requires forall i | 0 <= i < |ts| :: SourceOk(ts[i])
    ensures var data := Write(h, hp, vocab, ts);
            var front := HeaderSize(h) + 28 + |WriteItems(vocab, h.format != GGML)|;
            var infos := InfosOf(ts, front, h.format == GGJT);
            && Describes(infos, ts) && PayloadsHeld(data, infos, ts)
            && (forall i: nat | i < |ts| && IsFeedForward(ts, i) ::
                  Load(data, 0) == if |ts[i].dims| < 2 then Fail
                                   else Done(Model(h, hp, ts[i].dims[1], vocab, infos), |data|))
            && ((forall i: nat | i < |ts| :: !IsFeedForward(ts, i)) ==> Load(data, 0) == Fail)
  {
    hide IsFeedForward, FeedForward, Load, Write, WriteItems, InfosOf, Describes, PayloadsHeld, SourceOk, ItemOk, HyperOk;
    LoadOfWritten(h, hp, vocab, ts);
    var front := HeaderSize(h) + 28 + |WriteItems(vocab, h.format != GGML)|;
    InfosDescribe(ts, front, h.format == GGJT);
    FeedForwardOf(InfosOf(ts, front, h.format == GGJT), ts);
  }

  lemma HoldsAll(data: Bytes)
    ensures Holds(data, 0, data)
  {
    assert data[0..|data|] == data;
  }
}
