/** WeCom message framing after decryption (pkg/channels/wecom.go:552-605). */
module WeCom {

  newtype byte = x: int | 0 <= x < 256

  const BLOCK_SIZE := 32
  const UINT32 := 0x1_0000_0000

  datatype Unpadded = Data(value: seq<byte>) | InvalidSize(padding: nat) | LargerThanData | InvalidByte(position: nat)

  function Copies(p: byte): (r: seq<byte>)
    ensures |r| == p as int
  {
    seq(p as int, _ => p)
  }

  /** The first of the last `padding` bytes, from the end, that is not `padding`; `padding` when there is none. */
  function FirstBad(data: seq<byte>, padding: nat, i: nat): (r: nat)
    requires i <= padding <= |data| && padding < 256
    ensures i <= r <= padding
    ensures forall x :: |data| - r <= x < |data| - i ==> data[x] == padding as byte
    ensures r < padding ==> data[|data| - 1 - r] != padding as byte
    decreases padding - i
  {
    if i == padding || data[|data| - 1 - i] != padding as byte then i else FirstBad(data, padding, i + 1)
  }

  function Unpad(data: seq<byte>): Unpadded {
    if data == [] then Data(data)
    else
      var padding := data[|data| - 1] as int;
      if padding == 0 || padding > BLOCK_SIZE then InvalidSize(padding)
      else if padding > |data| then LargerThanData
      else
        var bad := FirstBad(data, padding, 0);
        if bad < padding then InvalidByte(bad) else Data(data[..|data| - padding])
  }

  method Pkcs7UnpadWeCom(data: seq<byte>) returns (r: Unpadded)
    ensures r == Unpad(data)
  {
    if |data| == 0 {
      return Data(data);
    }
    var padding := data[|data| - 1] as int;
    if padding == 0 || padding > BLOCK_SIZE {
      return InvalidSize(padding);
    }
    if padding > |data| {
      return LargerThanData;
    }
    var i := 0;
    while i < padding
      invariant 0 <= i <= padding
      invariant FirstBad(data, padding, 0) == FirstBad(data, padding, i)
    {
      if data[|data| - 1 - i] != padding as byte {
        return InvalidByte(i);
      }
      i := i + 1;
    }
    return Data(data[..|data| - padding]);
  }

  /** On non-empty data unpadding succeeds with `m` exactly when the data is `m` and p copies of p, 1 <= p <= 32. */
  lemma UnpadExactly(data: seq<byte>, m: seq<byte>)
    requires data != []
    ensures Unpad(data) == Data(m) <==> exists p: byte :: 1 <= p <= 32 && data == m + Copies(p)
  {
    var last := data[|data| - 1];
    if Unpad(data) == Data(m) {
      assert data == m + Copies(last);
    }
    if p: byte :| 1 <= p <= 32 && data == m + Copies(p) {
      assert data[|data| - 1] == Copies(p)[p as int - 1] == p;
      assert FirstBad(data, p as int, 0) == p as int by {
        assert forall x :: |data| - p as int <= x < |data| ==> data[x] == p;
      }
      assert data[..|data| - p as int] == m;
    }
  }

  /** The data fails to unpad in three ways: its last byte is no length from 1 to 32, or a length beyond the data, or
      one of so many last bytes is another; the nearest to the end is reported, by its distance. */
  lemma UnpadFailsExactly(data: seq<byte>, n: nat)
    requires data != []
    ensures Unpad([]) == Data([])
    ensures var last := data[|data| - 1] as int;
            && (Unpad(data) == InvalidSize(n) <==> last == n && (last == 0 || last > 32))
            && (Unpad(data) == LargerThanData <==> 0 < last <= 32 && last > |data|)
            && (Unpad(data) == InvalidByte(n) <==>
                  && 0 < last <= 32 && n < last <= |data| && data[|data| - 1 - n] as int != last
                  && forall x :: |data| - n <= x < |data| ==> data[x] as int == last)
  {
    var last := data[|data| - 1] as int;
    if 0 < last <= 32 && n < last <= |data| {
      var bad := FirstBad(data, last, 0);
      assert forall x :: |data| - bad <= x < |data| ==> data[x] == last as byte;
    }
  }

  /** Padding by section 6.3 of RFC 5652 with block size 32. */
  function Pad(m: seq<byte>): seq<byte> {
    m + Copies((BLOCK_SIZE - |m| % BLOCK_SIZE) as byte)
  }

  lemma UnpadInvertsPad(m: seq<byte>)
    ensures |Pad(m)| % BLOCK_SIZE == 0 && Pad(m) != []
    ensures Unpad(Pad(m)) == Data(m)
  {
    var p := (BLOCK_SIZE - |m| % BLOCK_SIZE) as byte;
    assert 1 <= p <= 32 && Pad(m) == m + Copies(p);
    UnpadExactly(Pad(m), m);
  }

  // ---------------------------------------------------------------- the frame

  datatype Parsed = Message(msg: seq<byte>) | BadPadding | TooShort | InvalidLength
      | ReceiveIDMismatch | SliceOutOfRange

  function BigEndian(b: seq<byte>): nat
    requires |b| == 4
  {
    ((b[0] as int * 256 + b[1] as int) * 256 + b[2] as int) * 256 + b[3] as int
  }

  /** `binary.BigEndian.PutUint32`. */
  function Bytes4(n: nat): (b: seq<byte>)
    requires n < UINT32
    ensures |b| == 4 && BigEndian(b) == n
  {
    var n1 := n / 256;
    var n2 := n1 / 256;
    var n3 := n2 / 256;
    [n3 as byte, (n2 % 256) as byte, (n1 % 256) as byte, (n % 256) as byte]
  }

  /** Random(16), length(4), message, receiver; the end of the message is computed in uint32. */
  function ParseFrame(plain: seq<byte>, receiveid: seq<byte>): Parsed {
    if |plain| < 20 then TooShort
    else
      var msgLen := BigEndian(plain[16..20]);
      if msgLen > |plain| - 20 then InvalidLength
      else
        var end := (20 + msgLen) % UINT32;
        if end < 20 then SliceOutOfRange
        else if receiveid != [] && |plain| > 20 + msgLen && plain[end..] != receiveid then ReceiveIDMismatch
        else Message(plain[20..end])
  }

  function Unwrap(data: seq<byte>, receiveid: seq<byte>): Parsed {
    match Unpad(data)
    case Data(plain) => ParseFrame(plain, receiveid)
    case _ => BadPadding
  }

  function Frame(random: seq<byte>, msg: seq<byte>, receiveid: seq<byte>): seq<byte>
    requires |msg| < UINT32
  {
    random + Bytes4(|msg|) + msg + receiveid
  }

  lemma FrameParts(random: seq<byte>, msg: seq<byte>, receiveid: seq<byte>)
    requires |random| == 16 && |msg| < UINT32
    ensures var f := Frame(random, msg, receiveid);
            && |f| == 20 + |msg| + |receiveid| && f[16..20] == Bytes4(|msg|)
            && f[20..20 + |msg|] == msg && f[20 + |msg|..] == receiveid
  {
    var b := Bytes4(|msg|);
    assert random + b + msg + receiveid == random + (b + (msg + receiveid));
  }

  /** A padded frame gives its message back exactly when the receiver is not checked, is missing from the
      frame, or is the expected one, and the message ends below the range of uint32. */
  lemma UnwrapExactly(random: seq<byte>, msg: seq<byte>, actual: seq<byte>, expected: seq<byte>)
    requires |random| == 16 && |msg| < UINT32
    ensures Unwrap(Pad(Frame(random, msg, actual)), expected) == Message(msg) <==>
              |msg| + 20 < UINT32 && (expected == [] || actual == [] || actual == expected)
  {
    hide Frame, Pad, Unpad, BigEndian;
    UnpadInvertsPad(Frame(random, msg, actual));
    FrameParts(random, msg, actual);
  }

  /** Whatever frame is parsed, the message is the stretch the length field announces, and the rest is the
      expected receiver when one is expected and there is a rest. */
  lemma ParsedIsInFrame(plain: seq<byte>, receiveid: seq<byte>)
    requires ParseFrame(plain, receiveid).Message? && |plain| < UINT32
    ensures var msg := ParseFrame(plain, receiveid).msg;
            exists tail :: plain == Frame(plain[..16], msg, tail) &&
                 (receiveid == [] || tail == [] || tail == receiveid)
  {
    var n := BigEndian(plain[16..20]);
    var msg, tail := plain[20..20 + n], plain[20 + n..];
    BytesOfBigEndian(plain[16..20]);
    assert plain == plain[..16] + plain[16..20] + msg + tail;
    assert plain == Frame(plain[..16], msg, tail);
  }

  /** The length a frame announces, in network byte order. */
  function Announced(plain: seq<byte>): nat
    requires |plain| >= 20
  {
    plain[16] as int * 16777216 + plain[17] as int * 65536 + plain[18] as int * 256 + plain[19] as int
  }

  /** Which of the five ends a frame comes to: it is too short, or announces more than it holds, or its message ends
      beyond uint32, or another receiver follows the message, or the message is read. */
  lemma ParsesExactly(plain: seq<byte>, receiveid: seq<byte>, msg: seq<byte>)
    ensures ParseFrame(plain, receiveid) == TooShort <==> |plain| < 20
    ensures ParseFrame(plain, receiveid) != BadPadding
    ensures |plain| >= 20 ==>
              var n := Announced(plain);
              && (ParseFrame(plain, receiveid) == InvalidLength <==> n + 20 > |plain|)
              && (ParseFrame(plain, receiveid) == SliceOutOfRange <==> n + 20 <= |plain| && n + 20 >= 4294967296)
              && (ParseFrame(plain, receiveid) == ReceiveIDMismatch <==>
                    && n + 20 < |plain| && n + 20 < 4294967296
                    && receiveid != [] && receiveid != plain[n + 20..])
              && (ParseFrame(plain, receiveid) == Message(msg) <==>
                    && n + 20 <= |plain| && n + 20 < 4294967296 && msg == plain[20..n + 20]
                    && (receiveid == [] || n + 20 == |plain| || receiveid == plain[n + 20..]))
  {
    if |plain| >= 20 {
      var b := plain[16..20];
      assert b[0] == plain[16] && b[1] == plain[17] && b[2] == plain[18] && b[3] == plain[19];
      assert BigEndian(b) == Announced(plain);
      assert Announced(plain) < 4294967296;
    }
  }

  lemma BytesOfBigEndian(b: seq<byte>)
    requires |b| == 4
    ensures BigEndian(b) < UINT32 && Bytes4(BigEndian(b)) == b
  {
    var n := BigEndian(b);
    assert n / 256 == (b[0] as int * 256 + b[1] as int) * 256 + b[2] as int;
    assert n / 256 / 256 == b[0] as int * 256 + b[1] as int;
  }
}
