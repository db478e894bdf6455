/** The WAFS object layout of internal/dyn/wafs.go: a 52-byte header and a list of records. The layout
    is written down as a printer; the reader is proved to find exactly what was printed. */
module Wafs {
  import opened Bits
  import opened Netip
  import opened Composition

  const KIND_SNAPSHOT := 1
  const KIND_PACKAGE := 2
  const TYPE_CIDR := 1
  const TYPE_STRING := 2
  const PACK_VERSION := 1
  const PACK_HEADER := 52
  const MAGIC: Bytes := [0x57, 0x41, 0x46, 0x53]

  datatype Head = Head(kind: Byte, typ: Byte, flags: Byte, epoch: u64, sn: u64, hash: u64, key: Bytes, count: u32)

  /** A record as it lies in the object. */
  datatype Raw =
    | RawCidr(op: Byte, fam: Byte, bits: Byte, addr: Bytes, exp: u64)
    | RawText(op: Byte, value: Bytes, exp: u64, reason: Bytes)

  datatype Object = Object(head: Head, raws: seq<Raw>)

  datatype Error = Truncated | NotWafs | BadVersion | BadFamily(fam: Byte) | BadType(typ: Byte)

  datatype Result<T> = Ok(value: T) | Err(error: Error)

  // ---- the printer ----

  predicate Reasons(h: Head) {
    h.flags % 2 == 1
  }

  predicate FitsRaw(h: Head, r: Raw) {
    match r
    case RawCidr(_, fam, _, addr, _) =>
      h.typ == TYPE_CIDR && ((fam == 4 && |addr| == 4) || (fam == 6 && |addr| == 16))
    case RawText(_, value, _, reason) =>
      h.typ == TYPE_STRING && |value| < TWO16 && |reason| < TWO16 && (!Reasons(h) ==> reason == [])
  }

  function Counted(b: Bytes): Bytes
    requires |b| < TWO16
  {
    ToLE(|b|, 2) + b
  }

  function PrintRaw(h: Head, r: Raw): (b: Bytes)
    requires FitsRaw(h, r)
    ensures |b| >= 11
  {
    match r
    case RawCidr(op, fam, bits, addr, exp) => [op, fam, bits] + addr + ToLE(exp, 8)
    case RawText(op, value, exp, reason) =>
      [op] + Counted(value) + ToLE(exp, 8) + (if Reasons(h) then Counted(reason) else [])
  }

  predicate FitsAll(h: Head, rs: seq<Raw>) {
    forall i :: 0 <= i < |rs| ==> FitsRaw(h, rs[i])
  }

  function PrintAll(h: Head, rs: seq<Raw>): Bytes
    requires FitsAll(h, rs)
  {
    if rs == [] then [] else PrintAll(h, rs[..|rs| - 1]) + PrintRaw(h, rs[|rs| - 1])
  }

  function PrintHead(h: Head): (b: Bytes)
    requires |h.key| == 16
    ensures |b| == PACK_HEADER
  {
    MAGIC + [PACK_VERSION, h.kind, h.typ, h.flags]
    + ToLE(h.epoch, 8) + ToLE(h.sn, 8) + ToLE(h.hash, 8) + h.key + ToLE(h.count, 4)
  }

  predicate Fits(o: Object) {
    |o.head.key| == 16 && o.head.count == |o.raws| && FitsAll(o.head, o.raws)
  }

  /** An object that can be printed. */
  type Whole = o: Object | Fits(o)
    witness Object(Head(0, 0, 0, 0, 0, 0, [0, 0, 0, 0, 0, 0, 0, 0, 0, 0, 0, 0, 0, 0, 0, 0], 0), [])

  function Print(o: Object): Bytes
    requires Fits(o)
  {
    PrintHead(o.head) + PrintAll(o.head, o.raws)
  }

  // ---- what a record means to the index ----

  function Signed(n: u64): i64 {
    if n < TWO63 then n else n - TWO64
  }

  function Interpret(r: Raw): Record
    requires r.RawCidr? && ((r.fam == 4 && |r.addr| == 4) || (r.fam == 6 && |r.addr| == 16))
  {
    BEBound(r.addr);
    Pow2Widths();
    var a := if r.fam == 4 then V4(FromBE(r.addr)) else V6(FromBE(r.addr));
    Record(r.op, PrefixFrom(a, r.bits), Signed(r.exp))
  }

  function Records(o: Object): seq<Record>
    requires Fits(o) && o.head.typ == TYPE_CIDR
  {
    seq(|o.raws|, i requires 0 <= i < |o.raws| => Interpret(o.raws[i]))
  }

  // ---- the layout is self-delimiting ----

  lemma CountedPrefixFree(x: Bytes, y: Bytes, a: Bytes, b: Bytes)
    requires |x| < TWO16 && |y| < TWO16 && Counted(x) + a == Counted(y) + b
    ensures x == y && a == b
  {
    assert (Counted(x) + a)[..2] == ToLE(|x|, 2);
    assert (Counted(y) + b)[..2] == ToLE(|y|, 2);
    Pow2Add(8, 8);
    Pow2Widths();
    LERoundTrip(|x|, 2);
    LERoundTrip(|y|, 2);
    var n := |x| + 2;
    assert (Counted(x) + a)[2..n] == x;
    assert (Counted(y) + b)[2..n] == y;
    assert (Counted(x) + a)[n..] == a;
    assert (Counted(y) + b)[n..] == b;
  }

  lemma WordPrefixFree(x: nat, y: nat, k: nat, a: Bytes, b: Bytes)
    requires x < Pow2(8 * k) && y < Pow2(8 * k) && ToLE(x, k) + a == ToLE(y, k) + b
    ensures x == y && a == b
  {
    Split(ToLE(x, k), ToLE(y, k), a, b);
    LERoundTrip(x, k);
    LERoundTrip(y, k);
  }

  lemma Split(x: Bytes, y: Bytes, a: Bytes, b: Bytes)
    requires |x| == |y| && x + a == y + b
    ensures x == y && a == b
  {
    assert (x + a)[..|x|] == x && (y + b)[..|y|] == y;
    assert (x + a)[|x|..] == a && (y + b)[|y|..] == b;
  }

  /** No printed record is a proper beginning of another. */
  lemma RawPrefixFree(h: Head, r: Raw, s: Raw, a: Bytes, b: Bytes)
    requires FitsRaw(h, r) && FitsRaw(h, s) && PrintRaw(h, r) + a == PrintRaw(h, s) + b
    ensures r == s && a == b
  {
    Pow2Widths();
    if r.RawCidr? {
      Cidr(h, r, a);
      Cidr(h, s, b);
      Split([r.op, r.fam, r.bits], [s.op, s.fam, s.bits], r.addr + (ToLE(r.exp, 8) + a), s.addr + (ToLE(s.exp, 8) + b));
      assert [r.op, r.fam, r.bits][1] == [s.op, s.fam, s.bits][1];
      assert [r.op, r.fam, r.bits][2] == [s.op, s.fam, s.bits][2];
      Split(r.addr, s.addr, ToLE(r.exp, 8) + a, ToLE(s.exp, 8) + b);
      WordPrefixFree(r.exp, s.exp, 8, a, b);
    } else {
      var ra := (if Reasons(h) then Counted(r.reason) else []) + a;
      var sb := (if Reasons(h) then Counted(s.reason) else []) + b;
      Text(h, r, a);
      Text(h, s, b);
      Split([r.op], [s.op], Counted(r.value) + (ToLE(r.exp, 8) + ra), Counted(s.value) + (ToLE(s.exp, 8) + sb));
      CountedPrefixFree(r.value, s.value, ToLE(r.exp, 8) + ra, ToLE(s.exp, 8) + sb);
      WordPrefixFree(r.exp, s.exp, 8, ra, sb);
      if Reasons(h) {
        CountedPrefixFree(r.reason, s.reason, a, b);
      } else {
        assert ra == a && sb == b;
      }
    }
  }

  lemma Cidr(h: Head, r: Raw, a: Bytes)
    requires FitsRaw(h, r) && r.RawCidr?
    ensures PrintRaw(h, r) + a == [r.op, r.fam, r.bits] + (r.addr + (ToLE(r.exp, 8) + a))
  {
  }

  lemma Text(h: Head, r: Raw, a: Bytes)
    requires FitsRaw(h, r) && r.RawText?
    ensures PrintRaw(h, r) + a ==
            [r.op] + (Counted(r.value) + (ToLE(r.exp, 8) + ((if Reasons(h) then Counted(r.reason) else []) + a)))
  {
  }

  /** A printed list is taken apart from the front. */
  lemma {:induction false} PrintAllCons(h: Head, rs: seq<Raw>)
    requires rs != [] && FitsAll(h, rs)
    ensures PrintAll(h, rs) == PrintRaw(h, rs[0]) + PrintAll(h, rs[1..])
  {
    var n := |rs| - 1;
    if n == 0 {
      assert rs[..0] == [] && rs[1..] == [];
      Units(PrintRaw(h, rs[0]));
    } else {
      PrintAllCons(h, rs[..n]);
      var tail := rs[1..];
      assert rs[..n][1..] == tail[..n - 1] && tail[n - 1] == rs[n];
      var first, mid, last := PrintRaw(h, rs[0]), PrintAll(h, tail[..n - 1]), PrintRaw(h, rs[n]);
      assert PrintAll(h, rs) == (first + mid) + last;
      assert PrintAll(h, tail) == mid + last;
      Assoc(first, mid, last);
    }
  }

  lemma Units(a: Bytes)
    ensures [] + a == a == a + []
  {
  }

  lemma Assoc(a: Bytes, b: Bytes, c: Bytes)
    ensures (a + b) + c == a + (b + c)
  {
  }

  /** A list of records is recovered as long as something follows to be read. */
  lemma {:induction false} ListPrefixFree(h: Head, rs: seq<Raw>, ss: seq<Raw>, a: Bytes, b: Bytes)
    requires FitsAll(h, rs) && FitsAll(h, ss) && |rs| <= |ss|
    requires PrintAll(h, rs) + a == PrintAll(h, ss) + b
    ensures rs == ss[..|rs|] && a == PrintAll(h, ss[|rs|..]) + b
  {
    if rs == [] {
      assert ss[0..] == ss;
      Units(a);
    } else {
      FirstRawAgrees(h, rs, ss, a, b);
      ListPrefixFree(h, rs[1..], ss[1..], a, b);
      TailsAgree(rs, ss);
    }
  }

  lemma FirstRawAgrees(h: Head, rs: seq<Raw>, ss: seq<Raw>, a: Bytes, b: Bytes)
    requires FitsAll(h, rs) && FitsAll(h, ss) && rs != [] && ss != []
    requires PrintAll(h, rs) + a == PrintAll(h, ss) + b
    ensures rs[0] == ss[0] && PrintAll(h, rs[1..]) + a == PrintAll(h, ss[1..]) + b
  {
    PrintAllCons(h, rs);
    PrintAllCons(h, ss);
    Assoc(PrintRaw(h, rs[0]), PrintAll(h, rs[1..]), a);
    Assoc(PrintRaw(h, ss[0]), PrintAll(h, ss[1..]), b);
    RawPrefixFree(h, rs[0], ss[0], PrintAll(h, rs[1..]) + a, PrintAll(h, ss[1..]) + b);
  }

  lemma TailsAgree(rs: seq<Raw>, ss: seq<Raw>)
    requires 0 < |rs| <= |ss| && rs[0] == ss[0] && rs[1..] == ss[1..][..|rs| - 1]
    ensures rs == ss[..|rs|] && ss[1..][|rs| - 1..] == ss[|rs|..]
  {
    assert rs == [rs[0]] + rs[1..];
    assert ss[..|rs|] == [ss[0]] + ss[1..][..|rs| - 1];
  }

  lemma HeadPrefixFree(g: Head, h: Head)
    requires |g.key| == 16 && |h.key| == 16 && PrintHead(g) == PrintHead(h)
    ensures g == h
  {
    HeadFields(g);
    HeadFields(h);
  }

  /** The fields of a header, read back from their offsets. */
  lemma HeadFields(h: Head)
    requires |h.key| == 16
    ensures var b := PrintHead(h);
            && b[..4] == MAGIC && b[4] == PACK_VERSION
            && h.kind == b[5] && h.typ == b[6] && h.flags == b[7]
            && h.epoch == FromLE(b[8..16]) && h.sn == FromLE(b[16..24]) && h.hash == FromLE(b[24..32])
            && h.key == b[32..48] && h.count == FromLE(b[48..52])
  {
    var b := PrintHead(h);
    Word64Reads(h.epoch);
    Word64Reads(h.sn);
    Word64Reads(h.hash);
    Word32Reads(h.count);
    HeadSlices(MAGIC, [PACK_VERSION, h.kind, h.typ, h.flags],
               ToLE(h.epoch, 8), ToLE(h.sn, 8), ToLE(h.hash, 8), h.key, ToLE(h.count, 4));
    assert b[4..8][0] == b[4] && b[4..8][1] == b[5] && b[4..8][2] == b[6] && b[4..8][3] == b[7];
  }

  lemma Word64Reads(n: u64)
    ensures FromLE(ToLE(n, 8)) == n
  {
    Pow2Widths();
    LERoundTrip(n, 8);
  }

  lemma Word32Reads(n: u32)
    ensures FromLE(ToLE(n, 4)) == n
  {
    Pow2Widths();
    LERoundTrip(n, 4);
  }

  lemma HeadSlices(magic: Bytes, tags: Bytes, epoch: Bytes, sn: Bytes, hash: Bytes, key: Bytes, count: Bytes)
    requires |magic| == |tags| == |count| == 4 && |epoch| == |sn| == |hash| == 8 && |key| == 16
    ensures var b := magic + tags + epoch + sn + hash + key + count;
            && b[..4] == magic && b[4..8] == tags && b[8..16] == epoch && b[16..24] == sn
            && b[24..32] == hash && b[32..48] == key && b[48..52] == count
  {
  }

  // ---- decoding as the inverse of printing ----

  ghost predicate Begins(data: Bytes, o: Object) {
    Fits(o) && Print(o) <= data
  }

  /** The object some data begins with. */
  ghost function Decoded(data: Bytes): Option<Whole> {
    if exists o :: Begins(data, o) then
      var o :| Begins(data, o);
      Some(o)
    else None
  }

  lemma BeginsUnique(data: Bytes, o: Object, p: Object)
    requires Begins(data, o) && Begins(data, p)
    ensures o == p
  {
    var a, b := data[|Print(o)|..], data[|Print(p)|..];
    BeginsHead(data, o);
    BeginsHead(data, p);
    HeadPrefixFree(o.head, p.head);
    BeginsBody(data, o);
    BeginsBody(data, p);
    ListPrefixFree(o.head, o.raws, p.raws, a, b);
    assert p.raws[..|p.raws|] == p.raws;
  }

  lemma DecodedIs(data: Bytes, o: Object)
    requires Begins(data, o)
    ensures Decoded(data) == Some(o)
  {
    BeginsUnique(data, o, Decoded(data).value);
  }

  /** Reading inverts printing, whatever bytes follow the object. */
  lemma RoundTrip(o: Object, tail: Bytes)
    requires Fits(o)
    ensures Decoded(Print(o) + tail) == Some(o)
  {
    DecodedIs(Print(o) + tail, o);
  }

  /** No object cut short is an object. */
  lemma CutIsRejected(o: Object, n: nat)
    requires Fits(o) && n < |Print(o)|
    ensures Decoded(Print(o)[..n]) == None
  {
    var cut := Print(o)[..n];
    forall p ensures !Begins(cut, p) {
      if Fits(p) && Print(p) <= cut {
        assert Print(p) <= Print(o);
        BeginsUnique(Print(o), o, p);
      }
    }
  }

  // ---- the reader ----

  ghost predicate StartsRaw(h: Head, rest: Bytes, r: Raw) {
    FitsRaw(h, r) && PrintRaw(h, r) <= rest
  }

  /** One record at a cursor. It is read exactly when a record lies there, and the cursor then moves
      past it. */
  method ReadRaw(h: Head, data: Bytes, start: nat) returns (r: Result<Raw>, pos: nat)
    requires start <= |data|
    ensures start <= pos <= |data|
    ensures r.Ok? ==> FitsRaw(h, r.value) && data[start..pos] == PrintRaw(h, r.value)
    ensures r.Err? ==> forall s :: !StartsRaw(h, data[start..], s)
  {
    pos := start;
    ghost var rest := data[start..];
    if pos + 1 > |data| {
      return Err(Truncated), pos;
    }
    var op := data[pos];
    pos := pos + 1;
    if h.typ == TYPE_CIDR {
      forall s | StartsRaw(h, rest, s) ensures |rest| >= 3 && s.fam == rest[1] && |rest| >= 11 + |s.addr| {
        assert PrintRaw(h, s)[1] == s.fam;
      }
      if pos + 2 > |data| {
        return Err(Truncated), pos;
      }
      var fam, bits := data[pos], data[pos + 1];
      pos := pos + 2;
      assert fam == rest[1];
      var width := if fam == 4 then 4 else 16;
      if fam != 4 && fam != 6 {
        return Err(BadFamily(fam)), pos;
      }
      if pos + width + 8 > |data| {
        return Err(Truncated), pos;
      }
      var addr := data[pos..pos + width];
      pos := pos + width;
      var exp := ReadWord64(data, pos);
      pos := pos + 8;
      r := Ok(RawCidr(op, fam, bits, addr, exp));
      assert data[start..pos] == [op, fam, bits] + addr + data[pos - 8..pos];
    } else if h.typ == TYPE_STRING {
      r, pos := ReadText(h, op, data, start);
    } else {
      return Err(BadType(h.typ)), pos;
    }
  }

  method ReadWord64(data: Bytes, pos: nat) returns (n: u64)
    requires pos + 8 <= |data|
    ensures data[pos..pos + 8] == ToLE(n, 8)
  {
    LEBound(data[pos..pos + 8]);
    Pow2Widths();
    LEInverse(data[pos..pos + 8]);
    n := FromLE(data[pos..pos + 8]);
  }

  lemma {:induction false} LEInverse(s: Bytes)
    ensures ToLE(FromLE(s), |s|) == s
  {
    if s != [] {
      LEInverse(s[1..]);
      LowByte(s[0], FromLE(s[1..]));
      assert s == [s[0]] + s[1..];
    }
  }

  lemma LowByte(b: Byte, x: nat)
    ensures (b + 256 * x) % 256 == b && (b + 256 * x) / 256 == x
  {
  }

  /** Two length bytes and as many bytes as they say, with `after` more bytes to follow. */
  method ReadCounted(data: Bytes, pos: nat, after: nat) returns (b: Option<Bytes>)
    requires pos <= |data|
    ensures b.Some? ==> |b.value| < TWO16 && pos + 2 + |b.value| + after <= |data| &&
                        data[pos..pos + 2 + |b.value|] == Counted(b.value)
    ensures b.None? ==> |data[pos..]| < 2 || |data[pos..]| < 2 + FromLE(data[pos..][..2]) + after
  {
    if pos + 2 > |data| {
      return None;
    }
    var two := data[pos..pos + 2];
    assert data[pos..][..2] == two;
    LEBound(two);
    LEInverse(two);
    Pow2Add(8, 8);
    Pow2Widths();
    var n := FromLE(two);
    if pos + 2 + n + after > |data| {
      return None;
    }
    var v := data[pos + 2..pos + 2 + n];
    assert data[pos..pos + 2 + n] == two + v;
    return Some(v);
  }

  lemma CountedLength(v: Bytes, rest: Bytes)
    requires |v| < TWO16 && Counted(v) <= rest
    ensures |v| == FromLE(rest[..2])
  {
    assert rest[..2] == Counted(v)[..2] == ToLE(|v|, 2);
    Pow2Add(8, 8);
    Pow2Widths();
    LERoundTrip(|v|, 2);
  }

  /** The part of a text record before its reason. */
  function Front(op: Byte, value: Bytes, exp: u64): Bytes
    requires |value| < TWO16
  {
    [op] + Counted(value) + ToLE(exp, 8)
  }

  method ReadText(h: Head, op: Byte, data: Bytes, start: nat) returns (r: Result<Raw>, pos: nat)
    requires start < |data| && op == data[start] && h.typ == TYPE_STRING
    ensures start <= pos <= |data|
    ensures r.Ok? ==> FitsRaw(h, r.value) && data[start..pos] == PrintRaw(h, r.value)
    ensures r.Err? ==> forall s :: !StartsRaw(h, data[start..], s)
  {
    var value, exp, mid := ReadFront(data, start);
    if value.None? {
      forall s ensures !StartsRaw(h, data[start..], s) {
        if StartsRaw(h, data[start..], s) { TextNeeds(h, s, data, start); }
      }
      return Err(Truncated), start + 1;
    }
    if !Reasons(h) {
      r, pos := Ok(RawText(op, value.value, exp, [])), mid;
      Units(Front(op, value.value, exp));
      return;
    }
    var reason := ReadCounted(data, mid, 0);
    if reason.None? {
      forall s ensures !StartsRaw(h, data[start..], s) {
        if StartsRaw(h, data[start..], s) { ReasonNeeds(h, s, value.value, exp, data, start, mid); }
      }
      return Err(Truncated), mid;
    }
    r, pos := Ok(RawText(op, value.value, exp, reason.value)), mid + 2 + |reason.value|;
    assert data[start..pos] == data[start..mid] + data[mid..pos];
  }

  /** The operation, the counted value and the expiry. */
  method ReadFront(data: Bytes, start: nat) returns (value: Option<Bytes>, exp: u64, pos: nat)
    requires start < |data|
    ensures value.Some? ==> |value.value| < TWO16 && start + 11 + |value.value| == pos <= |data| &&
                            data[start..pos] == Front(data[start], value.value, exp)
    ensures value.None? ==> |data[start + 1..]| < 2 || |data[start + 1..]| < 2 + FromLE(data[start + 1..][..2]) + 8
  {
    exp, pos := 0, start;
    value := ReadCounted(data, start + 1, 8);
    if value.None? {
      return;
    }
    var end := start + 3 + |value.value|;
    exp := ReadWord64(data, end);
    pos := end + 8;
    assert data[start..pos] == [data[start]] + data[start + 1..end] + data[end..pos];
  }

  /** A text record has room for its counted value and its expiry. */
  lemma TextNeeds(h: Head, s: Raw, data: Bytes, start: nat)
    requires start < |data| && StartsRaw(h, data[start..], s) && s.RawText?
    ensures var rest := data[start + 1..]; |rest| >= 2 && |rest| >= 2 + FromLE(rest[..2]) + 8
  {
    var rest := data[start..];
    TextTail(h, s, rest);
    assert rest[1..] == data[start + 1..];
    CountedLength(s.value, rest[1..]);
  }

  /** And, where reasons are kept, for its counted reason. */
  lemma ReasonNeeds(h: Head, s: Raw, value: Bytes, exp: u64, data: Bytes, start: nat, mid: nat)
    requires start < mid <= |data| && StartsRaw(h, data[start..], s) && s.RawText? && Reasons(h)
    requires |value| < TWO16 && mid == start + 11 + |value| && data[start..mid] == Front(data[start], value, exp)
    ensures var rest := data[mid..]; |rest| >= 2 && |rest| >= 2 + FromLE(rest[..2])
  {
    SplitAt(data, start, mid);
    TextReason(h, s, data[start], value, exp, data[mid..]);
    CountedLength(s.reason, data[mid..]);
  }

  lemma TextTail(h: Head, s: Raw, rest: Bytes)
    requires StartsRaw(h, rest, s) && s.RawText?
    ensures Counted(s.value) <= rest[1..] && |rest[1..]| >= |Counted(s.value)| + 8
  {
    var a := rest[|PrintRaw(h, s)|..];
    assert rest == PrintRaw(h, s) + a;
    Text(h, s, a);
    assert rest[1..] == Counted(s.value) + (ToLE(s.exp, 8) + ((if Reasons(h) then Counted(s.reason) else []) + a));
  }

  lemma TextReason(h: Head, s: Raw, op: Byte, value: Bytes, exp: u64, tail: Bytes)
    requires |value| < TWO16 && StartsRaw(h, Front(op, value, exp) + tail, s) && s.RawText? && Reasons(h)
    ensures Counted(s.reason) <= tail
  {
    var rest := Front(op, value, exp) + tail;
    var a := rest[|PrintRaw(h, s)|..];
    assert rest == PrintRaw(h, s) + a;
    Text(h, s, a);
    Regroup([op], Counted(value), ToLE(exp, 8), tail);
    Split([s.op], [op], Counted(s.value) + (ToLE(s.exp, 8) + (Counted(s.reason) + a)), (Counted(value) + ToLE(exp, 8)) + tail);
    ReasonAfter(s.value, value, ToLE(s.exp, 8), ToLE(exp, 8), Counted(s.reason), a, tail);
  }

  lemma Regroup(a: Bytes, b: Bytes, c: Bytes, d: Bytes)
    ensures ((a + b) + c) + d == a + ((b + c) + d)
  {
    Assoc(a, b, c);
    Assoc(a, b + c, d);
  }

  /** Behind equal fronts lies the same tail. */
  lemma ReasonAfter(v: Bytes, w: Bytes, x: Bytes, y: Bytes, r: Bytes, a: Bytes, tail: Bytes)
    requires |v| < TWO16 && |w| < TWO16 && |x| == |y|
    requires Counted(v) + (x + (r + a)) == (Counted(w) + y) + tail
    ensures r <= tail
  {
    Assoc(Counted(w), y, tail);
    CountedPrefixFree(v, w, x + (r + a), y + tail);
    Split(x, y, r + a, tail);
  }

  /** `unpack`: on any bytes it stays inside them, returns exactly `count` records when it succeeds,
      and succeeds exactly when the bytes begin with a printed object. */
  method Unpack(data: Bytes) returns (r: Result<Object>)
    ensures r.Ok? ==> Fits(r.value) && Decoded(data) == Some(r.value)
    ensures r.Err? ==> Decoded(data) == None
  {
    forall o | Begins(data, o)
      ensures |data| >= PACK_HEADER && data[..4] == MAGIC && data[4] == PACK_VERSION {
      BeginsHead(data, o);
    }
    if |data| < PACK_HEADER {
      return Err(Truncated);
    }
    if data[..4] != MAGIC {
      return Err(NotWafs);
    }
    if data[4] != PACK_VERSION {
      return Err(BadVersion);
    }
    var head := ReadHead(data);
    var raws: seq<Raw> := [];
    var pos: nat := PACK_HEADER;
    for i := 0 to head.count
      invariant ReadSoFar(data, head, raws, pos) && |raws| == i
    {
      var raw, next := ReadRaw(head, data, pos);
      if raw.Err? {
        forall o ensures !Begins(data, o) {
          if Begins(data, o) { NextRaw(data, head, raws, pos, o); }
        }
        return Err(raw.error);
      }
      ReadOneMore(data, head, raws, pos, raw.value, next);
      raws := raws + [raw.value];
      pos := next;
    }
    ReadToEnd(data, head, raws, pos);
    return Ok(Object(head, raws));
  }

  /** The bytes up to the cursor are the header and the records read. */
  ghost predicate ReadSoFar(data: Bytes, h: Head, raws: seq<Raw>, pos: nat) {
    && |h.key| == 16 && FitsAll(h, raws) && PACK_HEADER <= pos <= |data|
    && data[..PACK_HEADER] == PrintHead(h)
    && data[PACK_HEADER..pos] == PrintAll(h, raws)
  }

  lemma BeginsHead(data: Bytes, o: Object)
    requires Begins(data, o)
    ensures |data| >= PACK_HEADER && data[..PACK_HEADER] == PrintHead(o.head)
    ensures data[..4] == MAGIC && data[4] == PACK_VERSION
  {
    var top := data[..PACK_HEADER];
    assert top == Print(o)[..PACK_HEADER] == PrintHead(o.head);
    HeadFields(o.head);
    assert top[..4] == data[..4];
  }

  lemma ReadOneMore(data: Bytes, h: Head, raws: seq<Raw>, pos: nat, r: Raw, next: nat)
    requires ReadSoFar(data, h, raws, pos) && pos <= next <= |data|
    requires FitsRaw(h, r) && data[pos..next] == PrintRaw(h, r)
    ensures ReadSoFar(data, h, raws + [r], next)
  {
    PrintAllSnoc(h, raws, r);
    SplitRange(data, PACK_HEADER, pos, next);
  }

  lemma PrintAllSnoc(h: Head, raws: seq<Raw>, r: Raw)
    requires FitsAll(h, raws) && FitsRaw(h, r)
    ensures FitsAll(h, raws + [r]) && PrintAll(h, raws + [r]) == PrintAll(h, raws) + PrintRaw(h, r)
  {
    assert (raws + [r])[..|raws|] == raws;
  }

  lemma SplitRange(data: Bytes, i: nat, j: nat, k: nat)
    requires i <= j <= k <= |data|
    ensures data[i..k] == data[i..j] + data[j..k]
  {
  }

  lemma ReadToEnd(data: Bytes, h: Head, raws: seq<Raw>, pos: nat)
    requires ReadSoFar(data, h, raws, pos) && |raws| == h.count
    ensures Fits(Object(h, raws)) && Decoded(data) == Some(Object(h, raws))
  {
    assert data[..pos] == data[..PACK_HEADER] + data[PACK_HEADER..pos];
    DecodedIs(data, Object(h, raws));
  }

  method ReadHead(data: Bytes) returns (h: Head)
    requires |data| >= PACK_HEADER && data[..4] == MAGIC && data[4] == PACK_VERSION
    ensures |h.key| == 16 && PrintHead(h) == data[..PACK_HEADER]
  {
    var epoch := ReadWord64(data, 8);
    var sn := ReadWord64(data, 16);
    var hash := ReadWord64(data, 24);
    var count := ReadWord32(data, 48);
    h := Head(data[5], data[6], data[7], epoch, sn, hash, data[32..48], count);
    HeadPrints(data, h);
  }

  lemma HeadPrints(data: Bytes, h: Head)
    requires |data| >= PACK_HEADER && data[..4] == MAGIC && |h.key| == 16
    requires [data[4], data[5], data[6], data[7]] == [PACK_VERSION, h.kind, h.typ, h.flags]
    requires data[8..16] == ToLE(h.epoch, 8) && data[16..24] == ToLE(h.sn, 8) && data[24..32] == ToLE(h.hash, 8)
    requires data[32..48] == h.key && data[48..52] == ToLE(h.count, 4)
    ensures PrintHead(h) == data[..PACK_HEADER]
  {
    HeadPieces(data);
  }

  method ReadWord32(data: Bytes, pos: nat) returns (n: u32)
    requires pos + 4 <= |data|
    ensures data[pos..pos + 4] == ToLE(n, 4)
  {
    LEBound(data[pos..pos + 4]);
    Pow2Widths();
    LEInverse(data[pos..pos + 4]);
    n := FromLE(data[pos..pos + 4]);
  }

  lemma HeadPieces(data: Bytes)
    requires |data| >= PACK_HEADER
    ensures data[..PACK_HEADER] ==
            data[..4] + [data[4], data[5], data[6], data[7]] + data[8..16] + data[16..24] + data[24..32] + data[32..48] + data[48..52]
  {
  }

  /** Where an object begins the data, the next record lies at the cursor. */
  lemma NextRaw(data: Bytes, h: Head, raws: seq<Raw>, pos: nat, o: Object)
    requires Begins(data, o) && ReadSoFar(data, h, raws, pos) && |raws| < h.count
    ensures |raws| < |o.raws| && StartsRaw(h, data[pos..], o.raws[|raws|])
  {
    SameHead(data, h, o);
    BeginsBody(data, o);
    SplitAt(data, PACK_HEADER, pos);
    NextOf(h, raws, o.raws, data[pos..], data[|Print(o)|..]);
  }

  lemma SameHead(data: Bytes, h: Head, o: Object)
    requires Begins(data, o) && |data| >= PACK_HEADER && |h.key| == 16 && data[..PACK_HEADER] == PrintHead(h)
    ensures o.head == h
  {
    BeginsHead(data, o);
    HeadPrefixFree(h, o.head);
  }

  lemma SplitAt(data: Bytes, i: nat, j: nat)
    requires i <= j <= |data|
    ensures data[i..] == data[i..j] + data[j..]
  {
  }

  lemma NextOf(h: Head, raws: seq<Raw>, all: seq<Raw>, a: Bytes, b: Bytes)
    requires FitsAll(h, raws) && FitsAll(h, all) && |raws| < |all|
    requires PrintAll(h, raws) + a == PrintAll(h, all) + b
    ensures StartsRaw(h, a, all[|raws|])
  {
    ListPrefixFree(h, raws, all, a, b);
    var rest := all[|raws|..];
    PrintAllCons(h, rest);
    Assoc(PrintRaw(h, rest[0]), PrintAll(h, rest[1..]), b);
  }

  lemma BeginsBody(data: Bytes, o: Object)
    requires Begins(data, o)
    ensures |Print(o)| <= |data| && |data| >= PACK_HEADER
    ensures data[PACK_HEADER..] == PrintAll(o.head, o.raws) + data[|Print(o)|..]
  {
    var head, body, rest := PrintHead(o.head), PrintAll(o.head, o.raws), data[|Print(o)|..];
    assert data == (head + body) + rest;
    Assoc(head, body, rest);
    assert data[|head|..] == body + rest;
  }

  // ---- what records mean ----

  /** A CIDR record read for the index: its operation, its bytes of family, length and address in network order as the
      index hashes them, and its expiry as the two's complement of its eight bytes. */
  lemma InterpretIs(h: Head, r: Raw)
    requires r.RawCidr? && FitsRaw(h, r) && LengthFits(r)
    ensures ValidPrefix(Interpret(r).prefix) && Interpret(r).op == r.op && Interpret(r).exp % TWO64 == r.exp
    ensures Material(Interpret(r).prefix) == [r.fam, r.bits] + r.addr
    ensures PrintRaw(h, r) == [r.op] + Material(Interpret(r).prefix) + ToLE(r.exp, 8)
  {
    BEInverse(r.addr);
    SignedIs(r.exp);
    assert [r.op, r.fam, r.bits] == [r.op] + [r.fam, r.bits];
    assert [r.op] + ([r.fam, r.bits] + r.addr) == [r.op, r.fam, r.bits] + r.addr;
  }

  lemma SignedIs(n: u64)
    ensures Signed(n) % TWO64 == n
  {
  }

  /** A record whose length its family does not have keeps its operation and expiry and has no length. */
  lemma InterpretOverlong(h: Head, r: Raw)
    requires r.RawCidr? && FitsRaw(h, r) && !LengthFits(r)
    ensures Interpret(r).prefix.bits == -1 && Interpret(r).op == r.op && Interpret(r).exp % TWO64 == r.exp
  {
    SignedIs(r.exp);
  }

  /** The records of a decoded object are those that lie in its bytes, one for one and in order. */
  lemma RecordsAre(data: Bytes, o: Object, i: nat)
    requires Decoded(data) == Some(o) && o.head.typ == TYPE_CIDR && i < |o.raws|
    ensures |Records(o)| == o.head.count && FitsRaw(o.head, o.raws[i])
    ensures Records(o)[i].op == o.raws[i].op && Records(o)[i].exp % TWO64 == o.raws[i].exp
    ensures LengthFits(o.raws[i]) ==>
              ValidPrefix(Records(o)[i].prefix) &&
              Material(Records(o)[i].prefix) == [o.raws[i].fam, o.raws[i].bits] + o.raws[i].addr
    ensures Print(o) <= data
  {
    assert Records(o)[i] == Interpret(o.raws[i]);
    if LengthFits(o.raws[i]) { InterpretIs(o.head, o.raws[i]); } else { InterpretOverlong(o.head, o.raws[i]); }
  }

  // ---- what is not checked ----

  /** An object with one IPv4 record of length 33. */
  function Overlong(op: Byte): Object {
    var h := Head(KIND_PACKAGE, TYPE_CIDR, 0, 7, 1, 0, seq(16, i => 0), 1);
    Object(h, [RawCidr(op, 4, 33, [10, 0, 0, 0], 0)])
  }

  /** The reader accepts a length its family does not have. An added prefix of such a length ends the program;
      a removed one changes nothing. */
  lemma OverlongBitsAreRead(op: Byte, nets: Nets, tail: Bytes)
    requires ValidNets(nets)
    ensures var o := Overlong(op);
            && Fits(o) && Decoded(Print(o) + tail) == Some(o)
            && RunAll(nets, Records(o)) == if op == OP_ADD then None else Some(nets)
  {
    var o := Overlong(op);
    RoundTrip(o, tail);
    assert Records(o) == [Interpret(o.raws[0])];
    RunSingle(nets, Interpret(o.raws[0]));
  }

  lemma RunSingle(nets: Nets, r: Record)
    requires ValidNets(nets) && r.prefix.bits == -1
    ensures RunAll(nets, [r]) == if r.op == OP_ADD then None else Some(nets)
  {
    assert [r][..0] == [] && RunAll(nets, []) == Some(nets);
    assert r.prefix !in nets && nets - {r.prefix} == nets;
  }

  /** The length in a record is one its family has. */
  predicate LengthFits(r: Raw)
    requires r.RawCidr?
  {
    r.bits <= (if r.fam == 4 then 32 else 128)
  }

  /** Whatever valid prefixes a set holds, the records of an object can all be applied to it if and only if
      every one that adds has a length its family has. */
  lemma ObjectRunsIff(o: Object, nets: Nets)
    requires Fits(o) && o.head.typ == TYPE_CIDR && ValidNets(nets)
    ensures RunAll(nets, Records(o)).Some? <==>
            forall i :: 0 <= i < |o.raws| && o.raws[i].op == OP_ADD ==> LengthFits(o.raws[i])
  {
    RunsToEnd(nets, Records(o));
    forall i | 0 <= i < |o.raws|
      ensures Takes(Records(o)[i]) <==> (o.raws[i].op == OP_ADD ==> LengthFits(o.raws[i])) {
      assert Records(o)[i] == Interpret(o.raws[i]);
    }
    if Applicable(Records(o)) {
      forall i | 0 <= i < |o.raws| && o.raws[i].op == OP_ADD ensures LengthFits(o.raws[i]) {
        assert Takes(Records(o)[i]);
      }
    }
  }
}
