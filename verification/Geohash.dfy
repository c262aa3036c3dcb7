/** Geohash encoding and decoding over the reals (crates/latlng-geo/src/lib.rs). */
module Geohash {
  import opened Types

  const ALPHABET: string := "0123456789bcdefghjkmnpqrstuvwxyz"

  datatype Cell = Cell(latMin: real, latMax: real, lonMin: real, lonMax: real)

  const WORLD: Cell := Cell(-90.0, 90.0, -180.0, 180.0)

  // Bit level: even bits halve the longitude range, odd bits the latitude range.

  function Refine(c: Cell, even: bool, bit: bool): Cell {
    if even then
      var mid := (c.lonMin + c.lonMax) / 2.0;
      if bit then c.(lonMin := mid) else c.(lonMax := mid)
    else
      var mid := (c.latMin + c.latMax) / 2.0;
      if bit then c.(latMin := mid) else c.(latMax := mid)
  }

  function Choose(s: Scan, lat: real, lon: real): bool {
    if s.even then lon >= (s.cell.lonMin + s.cell.lonMax) / 2.0
    else lat >= (s.cell.latMin + s.cell.latMax) / 2.0
  }

  /** A cell and whether the next bit is an even one. */
  datatype Scan = Scan(cell: Cell, even: bool)

  const START: Scan := Scan(WORLD, true)

  function Advance(s: Scan, bit: bool): Scan {
    Scan(Refine(s.cell, s.even, bit), !s.even)
  }

  function ScanOf(bits: seq<bool>): Scan {
    if bits == [] then START else Advance(ScanOf(bits[..|bits| - 1]), bits[|bits| - 1])
  }

  function CellOf(bits: seq<bool>): Cell {
    ScanOf(bits).cell
  }

  /** The first `k` bits chosen for a point. */
  function Bits(lat: real, lon: real, k: nat): (b: seq<bool>)
    ensures |b| == k
  {
    if k == 0 then []
    else
      var b := Bits(lat, lon, k - 1);
      b + [Choose(ScanOf(b), lat, lon)]
  }

  // Character level: five bits a character, most significant first.

  function Value(bits: seq<bool>): nat {
    if bits == [] then 0
    else 2 * Value(bits[..|bits| - 1]) + if bits[|bits| - 1] then 1 else 0
  }

  function Letter(five: seq<bool>): char
    requires |five| == 5
  {
    FiveOfValue(five);
    ALPHABET[Value(five)]
  }

  function Pow2(n: nat): (p: nat)
    ensures p >= 1
  {
    if n == 0 then 1 else 2 * Pow2(n - 1)
  }

  function Five(v: nat): (b: seq<bool>)
    ensures |b| == 5
  {
    [v / 16 % 2 == 1, v / 8 % 2 == 1, v / 4 % 2 == 1, v / 2 % 2 == 1, v % 2 == 1]
  }

  function Position(c: char, k: nat): (r: Option<nat>)
    requires k <= |ALPHABET|
    ensures r.Some? ==> r.value < 32 && ALPHABET[r.value] == c
    ensures r.None? ==> forall j :: k <= j < |ALPHABET| ==> ALPHABET[j] != c
    decreases |ALPHABET| - k
  {
    if k == |ALPHABET| then None
    else if ALPHABET[k] == c then Some(k)
    else Position(c, k + 1)
  }

  /** The hash of `n` characters for 5n bits. */
  function Pack(bits: seq<bool>, n: nat): (h: string)
    requires |bits| == 5 * n
    ensures |h| == n
  {
    if n == 0 then ""
    else Pack(bits[..|bits| - 5], n - 1) + [Letter(bits[|bits| - 5..])]
  }

  function Unpack(h: string): (r: Option<seq<bool>>)
    ensures r.Some? ==> |r.value| == 5 * |h|
  {
    if h == "" then Some([])
    else
      var init := Unpack(h[..|h| - 1]);
      var p := Position(h[|h| - 1], 0);
      if init.Some? && p.Some? then Some(init.value + Five(p.value)) else None
  }

  function Encode(lat: real, lon: real, precision: nat): string {
    Pack(Bits(lat, lon, 5 * precision), precision)
  }

  function Decode(h: string): Option<Cell> {
    var bits := Unpack(h);
    if bits.Some? then Some(CellOf(bits.value)) else None
  }

  // The loops of the source.

  lemma {:induction false} ScanPush(bits: seq<bool>, bit: bool)
    ensures ScanOf(bits + [bit]) == Advance(ScanOf(bits), bit)
  {
    assert (bits + [bit])[..|bits|] == bits;
  }

  lemma {:induction false} ValuePush(bits: seq<bool>, bit: bool)
    ensures Value(bits + [bit]) == 2 * Value(bits) + if bit then 1 else 0
  {
    assert (bits + [bit])[..|bits|] == bits;
  }

  /** The letters of the hash hold exactly these bits. */
  ghost predicate Holds(hash: string, packed: seq<bool>) {
    |packed| == 5 * |hash| && hash == Pack(packed, |hash|)
  }

  lemma {:induction false} EmitLetter(hash: string, packed: seq<bool>, five: seq<bool>, all: seq<bool>)
    requires Holds(hash, packed) && |five| == 5 && all == packed + five
    ensures Value(five) < 32
    ensures Holds(hash + [ALPHABET[Value(five)]], all)
  {
    FiveOfValue(five);
    assert all[..|all| - 5] == packed && all[|all| - 5..] == five;
  }

  /** `all` are the bits so far, of which `packed` are in the hash and `pending` in `ch`. */
  ghost predicate Encoding(lat: real, lon: real, all: seq<bool>, packed: seq<bool>, pending: seq<bool>) {
    all == packed + pending && all == Bits(lat, lon, |all|)
  }

  lemma BitsPush(lat: real, lon: real, k: nat)
    ensures Bits(lat, lon, k + 1) == Bits(lat, lon, k) + [Choose(ScanOf(Bits(lat, lon, k)), lat, lon)]
  {
    hide ScanOf, Choose;
  }

  lemma {:induction false} EncodeBit(
      lat: real, lon: real, all: seq<bool>, packed: seq<bool>, pending: seq<bool>, bit: bool)
    requires Encoding(lat, lon, all, packed, pending) && bit == Choose(ScanOf(all), lat, lon)
    ensures Encoding(lat, lon, all + [bit], packed, pending + [bit])
    ensures ScanOf(all + [bit]) == Advance(ScanOf(all), bit)
    ensures Value(pending + [bit]) == 2 * Value(pending) + if bit then 1 else 0
  {
    hide Bits, ScanOf, Value, Advance, Choose;
    ScanPush(all, bit);
    ValuePush(pending, bit);
    BitsPush(lat, lon, |all|);
    assert packed + pending + [bit] == packed + (pending + [bit]);
  }

  lemma {:induction false} EncodeStart(lat: real, lon: real)
    ensures Holds("", []) && Encoding(lat, lon, [], [], []) && ScanOf([]) == START && Value([]) == 0
  {
  }

  method EncodeGeohash(lat: real, lon: real, precision: nat) returns (hash: string)
    ensures hash == Encode(lat, lon, precision)
  {
    hide Bits, Pack, ScanOf, Value, Advance, Choose;
    EncodeStart(lat, lon);
    hash := "";
    var scan := START;
    var ch: nat, bits: nat := 0, 0;
    ghost var packed: seq<bool>, pending: seq<bool>, all: seq<bool> := [], [], [];
    while |hash| < precision
      invariant |hash| <= precision && bits == |pending| < 5
      invariant |hash| == precision ==> bits == 0
      invariant Holds(hash, packed)
      invariant Encoding(lat, lon, all, packed, pending)
      invariant scan == ScanOf(all) && ch == Value(pending)
      decreases precision - |hash|, 5 - bits
    {
      var bit := Choose(scan, lat, lon);
      EncodeBit(lat, lon, all, packed, pending, bit);
      scan := Advance(scan, bit);
      ch := 2 * ch + if bit then 1 else 0;
      bits := bits + 1;
      all, pending := all + [bit], pending + [bit];
      if bits == 5 {
        EmitLetter(hash, packed, pending, all);
        hash := hash + [ALPHABET[ch]];
        packed, pending := all, [];
        bits, ch := 0, 0;
      }
    }
    assert all == packed;
  }

  /** The inner loop: five halvings for one character. */
  method RefineByFive(scan: Scan, five: seq<bool>, ghost bits: seq<bool>) returns (s: Scan)
    requires |five| == 5 && scan == ScanOf(bits)
    ensures s == ScanOf(bits + five)
  {
    s := scan;
    ghost var done := bits;
    for shift := 0 to 5
      invariant done == bits + five[..shift] && s == ScanOf(done)
    {
      ScanPush(done, five[shift]);
      s := Advance(s, five[shift]);
      done := done + [five[shift]];
    }
    assert five[..5] == five;
  }

  method DecodeGeohashBbox(value: string) returns (r: Option<BoundingBox>)
    ensures r == (match Decode(value)
                  case None => None
                  case Some(c) => Some(BoundingBox(c.latMin, c.lonMin, c.latMax, c.lonMax)))
  {
    var scan := START;
    ghost var bits: seq<bool> := [];
    for i := 0 to |value|
      invariant Unpack(value[..i]) == Some(bits) && scan == ScanOf(bits)
    {
      assert value[..i + 1][..i] == value[..i];
      var position := Position(value[i], 0);
      if position.None? {
        UnpackPrefix(value, i + 1);
        return None;
      }
      var five := Five(position.value);
      scan := RefineByFive(scan, five, bits);
      bits := bits + five;
    }
    assert value[..|value|] == value;
    var cell := scan.cell;
    return Some(BoundingBox(cell.latMin, cell.lonMin, cell.latMax, cell.lonMax));
  }

  lemma {:induction false} UnpackPrefix(h: string, k: nat)
    requires k <= |h| && Unpack(h[..k]).None?
    ensures Unpack(h).None?
    decreases |h| - k
  {
    if k == |h| {
      assert h[..k] == h;
    } else {
      assert h[..k + 1][..k] == h[..k];
      UnpackPrefix(h, k + 1);
    }
  }

  // Packing is a bijection between bit strings and valid hashes.

  lemma {:induction false} FiveOfValue(b: seq<bool>)
    requires |b| == 5
    ensures Value(b) < 32 && Five(Value(b)) == b
  {
    hide Value;
    FiveValue(b[0], b[1], b[2], b[3], b[4]);
    assert b == [b[0], b[1], b[2], b[3], b[4]];
  }

  lemma {:induction false} FiveValue(a: bool, b: bool, c: bool, d: bool, e: bool)
    ensures Value([a, b, c, d, e])
      == (if a then 16 else 0) + (if b then 8 else 0) + (if c then 4 else 0) + (if d then 2 else 0) + if e then 1 else 0
  {
    assert Value([]) == 0;
    hide Value;
    ValuePush([], a);
    assert [] + [a] == [a];
    ValuePush([a], b);
    assert [a] + [b] == [a, b];
    ValuePush([a, b], c);
    assert [a, b] + [c] == [a, b, c];
    ValuePush([a, b, c], d);
    assert [a, b, c] + [d] == [a, b, c, d];
    ValuePush([a, b, c, d], e);
    assert [a, b, c, d] + [e] == [a, b, c, d, e];
  }

  lemma {:induction false} ValueOfFive(v: nat)
    requires v < 32
    ensures Value(Five(v)) == v
  {
    hide Value;
    FiveValue(v / 16 % 2 == 1, v / 8 % 2 == 1, v / 4 % 2 == 1, v / 2 % 2 == 1, v % 2 == 1);
  }

  lemma {:induction false} PositionOfLetter(v: nat)
    requires v < 32
    ensures Position(ALPHABET[v], 0) == Some(v)
  {
    var p := Position(ALPHABET[v], 0).value;
    if p < v {
      AlphabetAscends(p, v);
    } else if v < p {
      AlphabetAscends(v, p);
    }
  }

  lemma {:induction false} AlphabetStep(i: nat)
    requires i < 31
    ensures ALPHABET[i] < ALPHABET[i + 1]
  {
  }

  lemma {:induction false} AlphabetAscends(i: nat, j: nat)
    requires i < j < 32
    ensures ALPHABET[i] < ALPHABET[j]
  {
    AlphabetStep(j - 1);
    if i < j - 1 {
      AlphabetAscends(i, j - 1);
    }
  }

  lemma {:induction false} UnpackPack(bits: seq<bool>, n: nat)
    requires |bits| == 5 * n
    ensures Unpack(Pack(bits, n)) == Some(bits)
  {
    if n > 0 {
      var init, last := bits[..|bits| - 5], bits[|bits| - 5..];
      UnpackPack(init, n - 1);
      FiveOfValue(last);
      PositionOfLetter(Value(last));
      hide Value, Five, Position;
      var h := Pack(bits, n);
      assert h[..|h| - 1] == Pack(init, n - 1);
      assert init + last == bits;
    }
  }

  lemma {:induction false} PackUnpack(h: string)
    requires Unpack(h).Some?
    ensures Pack(Unpack(h).value, |h|) == h
  {
    if h != "" {
      var init := h[..|h| - 1];
      PackUnpack(init);
      var bits := Unpack(h).value;
      var p := Position(h[|h| - 1], 0).value;
      assert bits[..|bits| - 5] == Unpack(init).value;
      assert bits[|bits| - 5..] == Five(p);
      ValueOfFive(p);
    }
  }

  // Cells.

  predicate Contains(c: Cell, lat: real, lon: real) {
    c.latMin <= lat <= c.latMax && c.lonMin <= lon <= c.lonMax
  }

  predicate Within(inner: Cell, outer: Cell) {
    outer.latMin <= inner.latMin && inner.latMax <= outer.latMax &&
    outer.lonMin <= inner.lonMin && inner.lonMax <= outer.lonMax
  }

  predicate Open(c: Cell) {
    c.latMin < c.latMax && c.lonMin < c.lonMax
  }

  lemma {:induction false} CellNested(bits: seq<bool>, k: nat)
    requires k <= |bits|
    ensures Open(CellOf(bits)) && Within(CellOf(bits), CellOf(bits[..k]))
  {
    if |bits| == k {
      assert bits[..k] == bits;
      if bits != [] {
        CellNested(bits[..|bits| - 1], 0);
      }
    } else {
      var init := bits[..|bits| - 1];
      CellNested(init, k);
      assert init[..k] == bits[..k];
    }
  }

  lemma {:induction false} BitsContain(lat: real, lon: real, k: nat)
    requires Contains(WORLD, lat, lon)
    ensures Contains(CellOf(Bits(lat, lon, k)), lat, lon)
  {
    if k > 0 {
      BitsContain(lat, lon, k - 1);
      assert Bits(lat, lon, k)[..k - 1] == Bits(lat, lon, k - 1);
    }
  }

  /** Decoding an encoded point gives a cell that contains the point. */
  lemma {:induction false} EncodeThenDecodeContains(lat: real, lon: real, precision: nat)
    requires Contains(WORLD, lat, lon)
    ensures var d := Decode(Encode(lat, lon, precision));
            d.Some? && Contains(d.value, lat, lon)
  {
    UnpackPack(Bits(lat, lon, 5 * precision), precision);
    BitsContain(lat, lon, 5 * precision);
  }

  function MidLat(c: Cell): real { (c.latMin + c.latMax) / 2.0 }

  function MidLon(c: Cell): real { (c.lonMin + c.lonMax) / 2.0 }

  lemma {:induction false} CenterChoosesBits(bits: seq<bool>, k: nat)
    requires k <= |bits|
    ensures Bits(MidLat(CellOf(bits)), MidLon(CellOf(bits)), k) == bits[..k]
  {
    if k > 0 {
      CenterChoosesBits(bits, k - 1);
      CellNested(bits, k);
      assert bits[..k][..k - 1] == bits[..k - 1];
      assert bits[..k] == bits[..k - 1] + [bits[k - 1]];
    }
  }

  /** Every valid hash is the encoding of its own cell's center. */
  lemma {:induction false} DecodeThenEncode(h: string)
    requires Decode(h).Some?
    ensures Encode(MidLat(Decode(h).value), MidLon(Decode(h).value), |h|) == h
  {
    var bits := Unpack(h).value;
    CenterChoosesBits(bits, |bits|);
    assert bits[..|bits|] == bits;
    PackUnpack(h);
  }

  lemma {:induction false} UnpackConcat(h: string, t: string)
    ensures Unpack(h + t).Some? <==> Unpack(h).Some? && Unpack(t).Some?
    ensures Unpack(h + t).Some? ==> Unpack(h + t).value == Unpack(h).value + Unpack(t).value
  {
    if t == "" {
      assert h + t == h;
    } else {
      UnpackConcat(h, t[..|t| - 1]);
      assert (h + t)[..|h + t| - 1] == h + t[..|t| - 1];
    }
  }

  /** A longer hash names a smaller cell inside the shorter hash's cell. */
  lemma {:induction false} ExtensionShrinks(h: string, t: string)
    requires Decode(h + t).Some?
    ensures Decode(h).Some? && Within(Decode(h + t).value, Decode(h).value)
  {
    UnpackConcat(h, t);
    var bits := Unpack(h + t).value;
    CellNested(bits, 5 * |h|);
    assert bits[..5 * |h|] == Unpack(h).value;
  }

  /** `w` halved `m` times. */
  function Halved(w: real, m: nat): real {
    if m == 0 then w else Halved(w, m - 1) / 2.0
  }

  lemma {:induction false} HalfQuotient(w: real, p: real)
    requires p > 0.0
    ensures (w / p) / 2.0 == w / (2.0 * p)
  {
  }

  lemma {:induction false} HalvedIsQuotient(w: real, m: nat)
    ensures Halved(w, m) == w / Pow2(m) as real
  {
    if m > 0 {
      HalvedIsQuotient(w, m - 1);
      HalfQuotient(w, Pow2(m - 1) as real);
    }
  }

  lemma {:induction false} CellSize(bits: seq<bool>)
    ensures ScanOf(bits).even == (|bits| % 2 == 0)
    ensures var c := CellOf(bits);
            c.lonMax - c.lonMin == Halved(360.0, (|bits| + 1) / 2) &&
            c.latMax - c.latMin == Halved(180.0, |bits| / 2)
  {
    if bits != [] {
      var init := bits[..|bits| - 1];
      CellSize(init);
      if |init| % 2 == 0 {
        assert (|bits| + 1) / 2 == (|init| + 1) / 2 + 1 && |bits| / 2 == |init| / 2;
      } else {
        assert (|bits| + 1) / 2 == (|init| + 1) / 2 && |bits| / 2 == |init| / 2 + 1;
      }
    }
  }

  /** A hash of n characters names a cell of 360 / 2^ceil(5n/2) by 180 / 2^floor(5n/2) degrees. */
  lemma {:induction false} HashCellSize(h: string)
    requires Decode(h).Some?
    ensures var c := Decode(h).value;
            c.lonMax - c.lonMin == 360.0 / Pow2((5 * |h| + 1) / 2) as real &&
            c.latMax - c.latMin == 180.0 / Pow2(5 * |h| / 2) as real
  {
    CellSize(Unpack(h).value);
    HalvedIsQuotient(360.0, (5 * |h| + 1) / 2);
    HalvedIsQuotient(180.0, 5 * |h| / 2);
  }

  lemma OutsideAlphabet()
    ensures '!' !in ALPHABET
  {
  }

  /** Decoding fails exactly on a character outside the alphabet. */
  lemma {:induction false} DecodableExactly(h: string)
    ensures Decode(h).Some? <==> forall i :: 0 <= i < |h| ==> h[i] in ALPHABET
  {
    if h != "" {
      var init, last := h[..|h| - 1], h[|h| - 1];
      DecodableExactly(init);
      PositionExactly(last);
      assert h == init + [last];
    }
  }

  lemma {:induction false} PositionExactly(c: char)
    ensures Position(c, 0).Some? <==> c in ALPHABET
  {
  }
}
