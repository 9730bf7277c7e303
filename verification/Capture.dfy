// One screen capture: the strict order of the frame's events, and the pixels written out.
module Capture {
  import opened Options
  import opened Words

  const MAX_SIDE: nat := 16384
  const MAX_PIXELS: nat := 32_000_000
  const MAX_BYTES: nat := 134_217_728
  const XRGB8888: uint32 := 1
  const ARGB8888: uint32 := 0
  const INT32_MAX: nat := 0x7fff_ffff

  // Unsigned 32-bit arithmetic.
  function Wrap32(n: nat): uint32 { n % TWO32 }

  // What the compositor says about the frame.
  datatype FrameEvent =
    | Buffer(format: uint32, width: uint32, height: uint32, stride: uint32)
    | LinuxDmabuf
    | BufferDone
    | Flags(flags: uint32)
    | Ready(ns: uint32)
    | Failed
    | Damage

  // What happened to the capture, in order.
  datatype Step = Offered(stride: nat) | Announced | Copied | Flagged(flags: nat) | Finished

  // The one order that is accepted, as far as it has come.
  predicate InOrder(h: seq<Step>) {
    && |h| <= 5
    && (|h| > 0 ==> h[0].Offered?) && (|h| > 1 ==> h[1].Announced?) && (|h| > 2 ==> h[2].Copied?)
    && (|h| > 3 ==> h[3].Flagged? && h[3].flags <= 1) && (|h| > 4 ==> h[4].Finished?)
  }

  // ---- The picture ----

  function SourceRow(y: nat, height: nat, flipped: bool): nat
    requires y < height
  {
    if flipped then height - 1 - y else y
  }

  // One packed row: the bytes of the source row, with every fourth one opaque.
  function Row(shared: seq<byte>, width: nat, stride: nat, sourceY: nat): (r: seq<byte>)
    requires 4 * width <= stride && (sourceY + 1) * stride <= |shared|
    ensures |r| == 4 * width
  {
    seq(4 * width, i requires 0 <= i < 4 * width =>
      RowInside(shared, stride, sourceY, i); if i % 4 == 3 then 255 else shared[sourceY * stride + i])
  }

  lemma RowInside(shared: seq<byte>, stride: nat, sourceY: nat, i: nat)
    requires i < stride && (sourceY + 1) * stride <= |shared|
    ensures sourceY * stride + i < |shared|
  {}

  lemma RowsInside(height: nat, stride: nat, y: nat)
    requires y < height
    ensures (y + 1) * stride <= height * stride
  {}

  function Rows(shared: seq<byte>, width: nat, height: nat, stride: nat, flipped: bool, n: nat): (r: seq<byte>)
    requires 4 * width <= stride && height * stride <= |shared| && n <= height
    ensures |r| == n * (4 * width)
  {
    if n == 0 then []
    else
      RowsInside(height, stride, SourceRow(n - 1, height, flipped));
      Rows(shared, width, height, stride, flipped, n - 1)
        + Row(shared, width, stride, SourceRow(n - 1, height, flipped))
  }

  function Header(width: uint32, height: uint32): (r: seq<byte>)
    requires width * height * 4 < TWO32 && width * 4 < TWO32
    ensures |r| == 32
  {
    ['O' as int, 'D' as int, 'I' as int, 'N' as int, 'S' as int, 'C' as int, '0' as int, '1' as int]
    + Put32(width) + Put32(height) + Put32(width * 4) + Put32(1) + Put32(0) + Put32(width * height * 4)
  }

  lemma Position(w: nat, y: nat, n: nat, j: nat)
    requires y < n && j < w
    ensures y * w + j < n * w
  {
    RowsInside(n, w, y);
    assert (y + 1) * w == y * w + w;
  }

  // Byte j of row y of the picture.
  lemma {:induction false} RowAt(shared: seq<byte>, width: nat, height: nat, stride: nat, flipped: bool, n: nat,
                                 y: nat, j: nat)
    requires 4 * width <= stride && height * stride <= |shared| && y < n <= height && j < 4 * width
    ensures y * (4 * width) + j < n * (4 * width)
    ensures (SourceRow(y, height, flipped) + 1) * stride <= |shared|
    ensures Rows(shared, width, height, stride, flipped, n)[y * (4 * width) + j] ==
      Row(shared, width, stride, SourceRow(y, height, flipped))[j]
    decreases n
  {
    Position(4 * width, y, n, j);
    RowsInside(height, stride, SourceRow(y, height, flipped));
    if y < n - 1 {
      RowAt(shared, width, height, stride, flipped, n - 1, y, j);
    }
  }

  // Colour c of the pixel at x, y of the picture: the same pixel of the source, whose rows are
  // counted from the top if the flag is clear and from the bottom if it is set; the fourth byte of
  // every pixel is 255.
  lemma PixelAt(shared: seq<byte>, width: nat, height: nat, stride: nat, flags: nat, x: nat, y: nat, c: nat)
    requires 4 * width <= stride && height * stride <= |shared| && x < width && y < height && c < 4
    ensures
      var (rows, at) := (Rows(shared, width, height, stride, flags == 1, height), y * (4 * width) + (4 * x + c));
      var (top, bottom) := (y * stride + (4 * x + c), (height - 1 - y) * stride + (4 * x + c));
      && 0 <= at < |rows| && 0 <= top < |shared| && 0 <= bottom < |shared|
      && (c < 3 && flags == 0 ==> rows[at] == shared[top])
      && (c < 3 && flags == 1 ==> rows[at] == shared[bottom])
      && (c == 3 ==> rows[at] == 255)
  {
    hide Rows, Row;
    RowAt(shared, width, height, stride, flags == 1, height, y, 4 * x + c);
    FromTop(shared, height, stride, y, 4 * x + c);
    RowByte(shared, width, stride, SourceRow(y, height, flags == 1), x, c);
    Position(4 * width, y, height, 4 * x + c);
  }

  lemma RowByte(shared: seq<byte>, width: nat, stride: nat, sourceY: nat, x: nat, c: nat)
    requires 4 * width <= stride && (sourceY + 1) * stride <= |shared| && x < width && c < 4
    ensures sourceY * stride + (4 * x + c) < |shared|
    ensures Row(shared, width, stride, sourceY)[4 * x + c] ==
            if c == 3 then 255 else shared[sourceY * stride + (4 * x + c)]
  {
    assert (4 * x + c) % 4 == c;
    RowInside(shared, stride, sourceY, 4 * x + c);
  }

  ghost predicate PixelIs(p: seq<byte>, shared: seq<byte>, width: nat, height: nat, stride: nat, flags: nat, x: nat,
                          y: nat, c: nat)
    requires x < width && y < height && c < 4
  {
    var (at, top, bottom) := (32 + (y * (4 * width) + (4 * x + c)), y * stride + (4 * x + c),
      (height - 1 - y) * stride + (4 * x + c));
    && 0 <= at < |p| && 0 <= top < |shared| && 0 <= bottom < |shared|
    && (c < 3 && flags == 0 ==> p[at] == shared[top])
    && (c < 3 && flags == 1 ==> p[at] == shared[bottom])
    && (c == 3 ==> p[at] == 255)
  }

  // What a capture writes, as its reader takes it apart: the magic, six little-endian words with the
  // sizes, and every pixel at its place.
  ghost predicate Pictured(p: seq<byte>, shared: seq<byte>, width: nat, height: nat, stride: nat, flags: nat) {
    && 32 <= |p| == 32 + height * (4 * width)
    && p[..8] == ['O' as int, 'D' as int, 'I' as int, 'N' as int, 'S' as int, 'C' as int, '0' as int, '1' as int]
    && Get32(p[8..12]) == width && Get32(p[12..16]) == height && Get32(p[16..20]) == 4 * width
    && Get32(p[20..24]) == 1 && Get32(p[24..28]) == 0 && Get32(p[28..32]) == 4 * width * height
    && forall x: nat, y: nat, c: nat | x < width && y < height && c < 4 ::
         PixelIs(p, shared, width, height, stride, flags, x, y, c)
  }

  lemma HeaderWords(width: uint32, height: uint32)
    requires width * height * 4 < TWO32 && width * 4 < TWO32
    ensures var h := Header(width, height);
      && h[..8] == ['O' as int, 'D' as int, 'I' as int, 'N' as int, 'S' as int, 'C' as int, '0' as int, '1' as int]
      && Get32(h[8..12]) == width && Get32(h[12..16]) == height && Get32(h[16..20]) == 4 * width
      && Get32(h[20..24]) == 1 && Get32(h[24..28]) == 0 && Get32(h[28..32]) == 4 * width * height
  {
    hide Put32, Get32;
    var h := Header(width, height);
    assert h[8..12] == Put32(width) && h[12..16] == Put32(height) && h[16..20] == Put32(width * 4);
    assert h[20..24] == Put32(1) && h[24..28] == Put32(0) && h[28..32] == Put32(width * height * 4);
    GetPut(width);
    GetPut(height);
    GetPut(width * 4);
    GetPut(1);
    GetPut(0);
    GetPut(width * height * 4);
  }

  lemma WrittenIsPictured(p: seq<byte>, shared: seq<byte>, width: uint32, height: uint32, stride: nat, flags: nat)
    requires width * height * 4 < TWO32 && width * 4 < TWO32
    requires 4 * width <= stride && height * stride <= |shared|
    requires p == Header(width, height) + Rows(shared, width, height, stride, flags == 1, height)
    ensures Pictured(p, shared, width, height, stride, flags)
  {
    hide Header, Get32, Rows, PixelIs;
    HeaderWords(width, height);
    HeaderFirst(p, Header(width, height), Rows(shared, width, height, stride, flags == 1, height));
    forall x: nat, y: nat, c: nat | x < width && y < height && c < 4
      ensures PixelIs(p, shared, width, height, stride, flags, x, y, c)
    {
      WrittenPixel(p, Header(width, height), shared, width, height, stride, flags, x, y, c);
    }
  }

  lemma HeaderFirst(p: seq<byte>, h: seq<byte>, rest: seq<byte>)
    requires p == h + rest && |h| == 32
    ensures p[..8] == h[..8] && p[8..12] == h[8..12] && p[12..16] == h[12..16] && p[16..20] == h[16..20]
    ensures p[20..24] == h[20..24] && p[24..28] == h[24..28] && p[28..32] == h[28..32]
  {}

  lemma WrittenPixel(p: seq<byte>, h: seq<byte>, shared: seq<byte>, width: nat, height: nat, stride: nat, flags: nat,
                     x: nat, y: nat, c: nat)
    requires 4 * width <= stride && height * stride <= |shared| && x < width && y < height && c < 4
    requires |h| == 32 && p == h + Rows(shared, width, height, stride, flags == 1, height)
    ensures PixelIs(p, shared, width, height, stride, flags, x, y, c)
  {
    hide Rows;
    var rows := Rows(shared, width, height, stride, flags == 1, height);
    var k := y * (4 * width) + (4 * x + c);
    PixelAt(shared, width, height, stride, flags, x, y, c);
    Behind(p, h, rows, k);
    FromTop(shared, height, stride, y, 4 * x + c);
  }

  lemma Behind(p: seq<byte>, h: seq<byte>, rest: seq<byte>, k: nat)
    requires |h| == 32 && p == h + rest && k < |rest|
    ensures |p| == 32 + |rest| && p[32 + k] == rest[k]
  {}

  lemma FromTop(shared: seq<byte>, height: nat, stride: nat, y: nat, j: nat)
    requires y < height && j < stride && height * stride <= |shared|
    ensures 0 <= y * stride + j < |shared| && 0 <= (height - 1 - y) * stride + j < |shared|
  {
    RowsInside(height, stride, y);
    RowsInside(height, stride, height - 1 - y);
  }

  class Frame {
    const width: uint32
    const height: uint32
    var format: uint32
    var stride: uint32
    var flags: uint32
    var mapSize: nat
    var offered: bool
    var bufferDone: bool
    var copied: bool
    var flagsSeen: bool
    var ready: bool
    var error: bool
    var out: seq<byte>            // standard output
    ghost var history: seq<Step>

    ghost predicate Sized() {
      1 <= width <= MAX_SIDE && 1 <= height <= MAX_SIDE && width * height <= MAX_PIXELS
    }

    // Without an error the flags say exactly how far the one accepted order has come, and an
    // offered buffer holds the frame.
    ghost predicate Valid()
      reads this
    {
      && Sized()
      && (!error ==>
            && InOrder(history)
            && (offered <==> |history| > 0) && (bufferDone <==> |history| > 1) && (copied <==> |history| > 2)
            && (flagsSeen <==> |history| > 3) && (ready <==> |history| > 4)
            && (offered ==>
              stride == history[0].stride && 4 * width <= stride && mapSize == height * stride <= MAX_BYTES)
            && (flagsSeen ==> flags == history[3].flags))
    }

    constructor (width: uint32, height: uint32)
      requires 1 <= width <= MAX_SIDE && 1 <= height <= MAX_SIDE && width * height <= MAX_PIXELS
      ensures Valid() && !error && history == [] && out == [] && this.width == width && this.height == height
    {
      this.width, this.height := width, height;
      format, stride, flags, mapSize := 0, 0, 0, 0;
      offered, bufferDone, copied, flagsSeen, ready, error := false, false, false, false, false, false;
      out, history := [], [];
    }

    // A buffer of the frame's size and a known format, with whole words and room for every row.
    predicate Holds(format: uint32, width: uint32, height: uint32, stride: uint32) {
      && format <= 1 && width == this.width && height == this.height
      && 4 * width <= stride < 0x8000_0000 && stride % 4 == 0
      && stride * height + width * 4 <= 128 * 1024 * 1024
    }

    // frame_buffer(). Like every event below, it is an error exactly if it is out of order or
    // does not fit.
    method FrameBuffer(format: uint32, width: uint32, height: uint32, stride: uint32)
      requires Valid()
      modifies this`format, this`stride, this`mapSize, this`offered, this`error, this`history
      ensures Valid() && (!error ==> history == old(history) + [Offered(stride)])
      ensures error <==>
        old(error) || !InOrder(old(history) + [Offered(stride)]) || !Holds(format, width, height, stride)
    {
      hide Wrap32;
      Unwrapped(this.width * 4);
      var bytes := stride * height;
      if offered || bufferDone || (format != XRGB8888 && format != ARGB8888) ||
        width != this.width || height != this.height || stride < Wrap32(width * 4) ||
        stride % 4 != 0 || stride > INT32_MAX || bytes + width * 4 > MAX_BYTES
      {
        error := true;
        return;
      }
      offered, this.format, this.stride, mapSize := true, format, stride, bytes;
      history := history + [Offered(stride)];
      assert bytes == this.height * stride;
    }

    // frame_buffer_done()
    method FrameBufferDone()
      requires Valid()
      modifies this`bufferDone, this`error, this`history
      ensures Valid() && (!error ==> history == old(history) + [Announced])
      ensures error <==> old(error) || !InOrder(old(history) + [Announced])
    {
      if bufferDone || !offered {
        error := true;
        return;
      }
      bufferDone := true;
      history := history + [Announced];
    }

    // frame_flags()
    method FrameFlags(flags: uint32)
      requires Valid()
      modifies this`flags, this`flagsSeen, this`error, this`history
      ensures Valid() && (!error ==> history == old(history) + [Flagged(flags)])
      ensures error <==> old(error) || !InOrder(old(history) + [Flagged(flags)])
    {
      if !copied || flagsSeen || flags > 1 {
        error := true;
        return;
      }
      flagsSeen, this.flags := true, flags;
      history := history + [Flagged(flags)];
    }

    // frame_ready()
    method FrameReady(ns: uint32)
      requires Valid()
      modifies this`ready, this`error, this`history
      ensures Valid() && (!error ==> history == old(history) + [Finished])
      ensures error <==> old(error) || !InOrder(old(history) + [Finished]) || ns >= 1_000_000_000
    {
      if !copied || !flagsSeen || ready || ns >= 1_000_000_000 {
        error := true;
        return;
      }
      ready := true;
      history := history + [Finished];
    }

    // What an event makes of what happened so far; nothing, if it has no place there.
    function After(h: seq<Step>, e: FrameEvent): Option<seq<Step>> {
      match e
      case Buffer(format, width, height, stride) => Placed(h, Offered(stride), Holds(format, width, height, stride))
      case LinuxDmabuf => if |h| > 1 then None else Some(h)
      case BufferDone => Placed(h, Announced, true)
      case Flags(flags) => Placed(h, Flagged(flags), true)
      case Ready(ns) => Placed(h, Finished, ns < 1_000_000_000)
      case Failed => None
      case Damage => None
    }

    static function Placed(h: seq<Step>, step: Step, fits: bool): Option<seq<Step>> {
      if InOrder(h + [step]) && fits then Some(h + [step]) else None
    }

    function AfterAll(h: seq<Step>, events: seq<FrameEvent>): Option<seq<Step>> {
      if events == [] then Some(h)
      else
        var before := AfterAll(h, events[..|events| - 1]);
        if before.None? then None else After(before.value, events[|events| - 1])
    }

    method Handle(e: FrameEvent)
      requires Valid()
      modifies this`format, this`stride, this`mapSize, this`offered, this`bufferDone, this`flags, this`flagsSeen,
               this`ready, this`error, this`history
      ensures Valid() && (error <==> old(error) || After(old(history), e).None?)
      ensures !error ==> Some(history) == After(old(history), e)
    {
      hide InOrder, Holds;
      match e {
        case Buffer(format, width, height, stride) => FrameBuffer(format, width, height, stride);
        case LinuxDmabuf => if bufferDone { error := true; }
        case BufferDone => FrameBufferDone();
        case Flags(flags) => FrameFlags(flags);
        case Ready(ns) => FrameReady(ns);
        case Failed => error := true;
        case Damage => error := true;
      }
    }

    // One dispatch may deliver any number of events, also after an error. It ends in an error
    // exactly if some event has no place.
    method Dispatch(events: seq<FrameEvent>)
      requires Valid()
      modifies this`format, this`stride, this`mapSize, this`offered, this`bufferDone, this`flags, this`flagsSeen,
               this`ready, this`error, this`history
      ensures Valid() && (error <==> old(error) || AfterAll(old(history), events).None?)
      ensures !error ==> Some(history) == AfterAll(old(history), events)
    {
      hide After;
      for i := 0 to |events|
        invariant Valid() && (error <==> old(error) || AfterAll(old(history), events[..i]).None?)
        invariant !error ==> Some(history) == AfterAll(old(history), events[..i])
      {
        assert events[..i + 1][..i] == events[..i];
        Handle(events[i]);
      }
      assert events[..|events|] == events;
    }

    // The request to copy, made once the buffer is complete.
    method Copy()
      requires Valid() && !error && bufferDone && !copied
      modifies this`copied, this`history
      ensures Valid() && history == old(history) + [Copied]
    {
      copied := true;
      history := history + [Copied];
    }

    // write_all(): the pipe takes what it wants of at most 4096 bytes at a time, and may
    // interrupt the writer, though not forever. obey: it keeps taking some, in time.
    method WriteAll(p: seq<byte>, obey: bool) returns (ok: bool)
      requires !error
      modifies this`out, this`error
      ensures ok == !error && old(out) <= out && (obey ==> ok)
      ensures out <= old(out) + p && (ok ==> out == old(out) + p)
    {
      var rest := p;
      var interruptions: int := *;
      assert old(out) + p == out + rest;
      while rest != [] && !error
        invariant out + rest == old(out) + p && old(out) <= out && (obey ==> !error)
        decreases |rest|, interruptions
      {
        var late: bool := *;
        if late && !obey {
          error := true;
          return false;
        }
        var interrupted: bool := *;
        if interrupted && interruptions > 0 {
          interruptions := interruptions - 1;
          continue;
        }
        var chunk := if |rest| > 4096 then 4096 else |rest|;
        var written: int :| obey ==> 0 < written <= chunk;
        if written <= 0 || written > chunk {
          error := true;
          return false;
        }
        Moved(out, rest, written);
        out, rest := out + rest[..written], rest[written..];
      }
      ok := !error;
    }

    static lemma Moved(out: seq<byte>, rest: seq<byte>, k: nat)
      requires k <= |rest|
      ensures (out + rest[..k]) + rest[k..] == out + rest
    {}

    // One pixel: a little-endian word of the source, and its bytes with the last one opaque.
    static method PackPixel(shared: seq<byte>, source: nat) returns (b: byte, g: byte, r: byte)
      requires source + 4 <= |shared|
      ensures b == shared[source] && g == shared[source + 1] && r == shared[source + 2]
    {
      hide Put32, Get32;
      var pixel := Get32(shared[source..source + 4]);
      PutGet(shared[source..source + 4]);
      var bytes := Put32(pixel);
      b, g, r := bytes[0], bytes[1], bytes[2];
    }

    static lemma Unwrapped(n: nat)
      requires n < TWO32
      ensures Wrap32(n) == n
    {}

    static lemma Wanted(shared: seq<byte>, width: nat, stride: nat, sourceY: nat, base: nat, x: nat)
      requires 4 * width <= stride && (sourceY + 1) * stride <= |shared| && x < width && base == sourceY * stride
      ensures base + 4 * x + 4 <= |shared|
      ensures var row := Row(shared, width, stride, sourceY);
        && row[4 * x] == shared[base + 4 * x] && row[4 * x + 1] == shared[base + 4 * x + 1]
        && row[4 * x + 2] == shared[base + 4 * x + 2] && row[4 * x + 3] == 255
    {
      RowInside(shared, stride, sourceY, 4 * x + 3);
    }

    // One row, pixel by pixel. Every byte it reads lies inside the mapping.
    method PackRow(shared: seq<byte>, sourceY: nat) returns (row: seq<byte>)
      requires Sized() && 4 * width <= stride && (sourceY + 1) * stride <= |shared|
      ensures row == Row(shared, width, stride, sourceY)
    {
      hide Row, Wrap32;
      Unwrapped(width * 4);
      var packed := new byte[Wrap32(width * 4)](_ => 0);
      ghost var want := Row(shared, width, stride, sourceY);
      var base := sourceY * stride;
      var x := 0;
      while x < width
        invariant 0 <= x <= width && forall i :: 0 <= i < 4 * x ==> packed[i] == want[i]
      {
        Wanted(shared, width, stride, sourceY, base, x);
        Unwrapped(x * 4);
        var b, g, r := PackPixel(shared, base + Wrap32(x * 4));
        packed[4 * x], packed[4 * x + 1], packed[4 * x + 2], packed[4 * x + 3] := b, g, r, 255;
        x := x + 1;
      }
      row := packed[..];
      assert row == want;
    }

    // publish(): the header, then the rows, top down. The sizes in the header are exact.
    method Publish(shared: seq<byte>, obey: bool) returns (ok: bool)
      requires Valid() && !error && ready && |shared| == mapSize
      modifies this`out, this`error
      ensures Valid() && old(out) <= out && ok == !error && (obey ==> ok)
      ensures ok ==> out == old(out) + Header(width, height) + Rows(shared, width, height, stride, flags == 1, height)
    {
      hide Rows, Header, Row, InOrder;
      var header := MakeHeader();
      var room: bool :| obey ==> room;
      if !room {
        error := true;
        return false;
      }
      ok := WriteAll(header, obey);
      ghost var start := old(out) + Header(width, height);
      NoRows(shared, width, height, stride, flags == 1, start);
      var y := 0;
      while ok && y < height
        invariant 0 <= y <= height && ok == !error && Valid() && old(out) <= out && (obey ==> ok)
        invariant ok ==> out == start + Rows(shared, width, height, stride, flags == 1, y)
      {
        ok := PublishRow(shared, y, start, obey);
        y := y + 1;
      }
    }

    method PublishRow(shared: seq<byte>, y: nat, ghost start: seq<byte>, obey: bool) returns (ok: bool)
      requires Valid() && !error && ready && |shared| == mapSize && y < height
      requires out == start + Rows(shared, width, height, stride, flags == 1, y)
      modifies this`out, this`error
      ensures Valid() && old(out) <= out && ok == !error && (obey ==> ok)
      ensures ok ==> out == start + Rows(shared, width, height, stride, flags == 1, y + 1)
    {
      hide Rows, Row, InOrder;
      var sourceY := SourceRow(y, height, flags == 1);
      RowsInside(height, stride, sourceY);
      var row := PackRow(shared, sourceY);
      OneMoreRow(shared, width, height, stride, flags == 1, y, start);
      ok := WriteAll(row, obey);
    }

    method MakeHeader() returns (header: seq<byte>)
      requires Sized()
      ensures header == Header(width, height)
    {
      Unwrapped(width * 4);
      Unwrapped(width * height * 4);
      header := ['O' as int, 'D' as int, 'I' as int, 'N' as int, 'S' as int, 'C' as int, '0' as int, '1' as int]
        + Put32(width) + Put32(height) + Put32(Wrap32(width * 4)) + Put32(1) + Put32(0)
          + Put32(Wrap32(width * height * 4));
    }

    static lemma NoRows(shared: seq<byte>, width: nat, height: nat, stride: nat, flipped: bool, start: seq<byte>)
      requires 4 * width <= stride && height * stride <= |shared|
      ensures start + Rows(shared, width, height, stride, flipped, 0) == start
    {}

    static lemma OneMoreRow(shared: seq<byte>, width: nat, height: nat, stride: nat, flipped: bool, y: nat,
                            start: seq<byte>)
      requires 4 * width <= stride && height * stride <= |shared| && y < height
      ensures (SourceRow(y, height, flipped) + 1) * stride <= |shared|
      ensures start + Rows(shared, width, height, stride, flipped, y)
        + Row(shared, width, stride, SourceRow(y, height, flipped))
        == start + Rows(shared, width, height, stride, flipped, y + 1)
    {
      RowsInside(height, stride, SourceRow(y, height, flipped));
      var a, b := Rows(shared, width, height, stride, flipped, y),
        Row(shared, width, stride, SourceRow(y, height, flipped));
      assert start + a + b == start + (a + b);
    }

    // What happened up to a number of steps, and how many batches that took, from one batch on.
    function Delivered(h: seq<Step>, batches: seq<seq<FrameEvent>>, k: nat, steps: nat): Option<(seq<Step>, nat)>
      requires k <= |batches|
      ensures Delivered(h, batches, k, steps).Some? ==> Delivered(h, batches, k, steps).value.1 <= |batches|
      decreases |batches| - k
    {
      if |h| >= steps then Some((h, k))
      else if k == |batches| || AfterAll(h, batches[k]).None? then None
      else Delivered(AfterAll(h, batches[k]).value, batches, k + 1, steps)
    }

    // These batches hold a whole capture, if the copy is requested as soon as it may be.
    predicate Completes(batches: seq<seq<FrameEvent>>) {
      var announced := Delivered([], batches, 0, 2);
      && announced.Some?
      && Delivered(announced.value.0 + [Copied], batches, announced.value.1, 5).Some?
    }

    // The whole capture. The compositor's events come in dispatches of any size; the buffer
    // is made between the announcement and the copy; what the mapping holds in the end is up to
    // the compositor. obey: the buffer can be made, the connection shut, and the pipe keeps
    // taking. Nothing is written unless the one accepted order of events came in full.
    method Capture(batches: seq<seq<FrameEvent>>, obey: bool) returns (ok: bool, ghost shared: seq<byte>)
      requires Valid() && !error && history == []
      modifies this
      ensures ok || out != old(out) ==>
        && Completes(batches) && |history| == 5 && InOrder(history)
        && stride == history[0].stride && flags == history[3].flags
      ensures ok ==> ready && !error && |shared| == height * stride && 4 * width <= stride
      ensures ok ==> out == old(out) + Header(width, height) + Rows(shared, width, height, stride, flags == 1, height)
      ensures ok ==> Pictured(out[|old(out)|..], shared, width, height, stride, flags)
      ensures obey ==> (ok <==> Completes(batches))
    {
      hide Rows, Header, InOrder, Delivered, Holds, Pictured;
      ghost var before := out;
      ok, shared := false, [];
      var k := AwaitBuffer(batches);
      var created: bool :| obey ==> created;
      if error || !created {
        return;
      }
      Copy();
      AwaitReady(batches, k);
      var disconnected: bool :| obey ==> disconnected;
      if error || !disconnected {
        return;
      }
      InFull();
      var mapping := Mapped();
      shared := mapping;
      ok := Publish(mapping, obey);
      if ok {
        assert out[|before|..] == Header(width, height) + Rows(mapping, width, height, stride, flags == 1, height);
        WrittenIsPictured(out[|before|..], mapping, width, height, stride, flags);
      }
    }

    // Events are taken until the buffer is announced, or something is wrong.
    method AwaitBuffer(batches: seq<seq<FrameEvent>>) returns (k: nat)
      requires Valid() && !error && history == []
      modifies this`format, this`stride, this`mapSize, this`offered, this`bufferDone, this`flags, this`flagsSeen,
               this`ready, this`error, this`history
      ensures Valid() && !copied && k <= |batches|
      ensures if error then Delivered([], batches, 0, 2).None?
              else bufferDone && Delivered([], batches, 0, 2) == Some((history, k))
    {
      hide InOrder, AfterAll, Holds;
      k := 0;
      while !bufferDone && !error
        invariant Valid() && !copied && k <= |batches|
        invariant if error then Delivered([], batches, 0, 2).None?
                  else Delivered([], batches, 0, 2) == Delivered(history, batches, k, 2)
        decreases |batches| - k, !error
      {
        if k == |batches| {
          error := true;               // the deadline
        } else {
          Dispatch(batches[k]);
          k := k + 1;
        }
      }
    }

    // The same until the frame is ready.
    method AwaitReady(batches: seq<seq<FrameEvent>>, from: nat)
      requires Valid() && !error && copied && !ready && from <= |batches|
      modifies this`format, this`stride, this`mapSize, this`offered, this`bufferDone, this`flags, this`flagsSeen,
               this`ready, this`error, this`history
      ensures Valid() && (error <==> Delivered(old(history), batches, from, 5).None?) && (!error ==> ready)
    {
      hide InOrder, AfterAll, Holds;
      var k := from;
      while !ready && !error
        invariant Valid() && copied && k <= |batches|
        invariant if error then Delivered(old(history), batches, from, 5).None?
                  else Delivered(old(history), batches, from, 5) == Delivered(history, batches, k, 5)
        decreases |batches| - k, !error
      {
        if k == |batches| {
          error := true;
        } else {
          Dispatch(batches[k]);
          k := k + 1;
        }
      }
    }

    // Everything came, and the mapping has room for every row.
    lemma InFull()
      requires Valid() && !error && ready
      ensures |history| == 5 && InOrder(history) && stride == history[0].stride && flags == history[3].flags
      ensures 4 * width <= stride && mapSize == height * stride
    {}

    // The shared memory, once the connection is shut: any bytes at all.
    method Mapped() returns (shared: seq<byte>)
      requires Valid()
      ensures |shared| == mapSize
    {
      var bytes := new byte[mapSize](_ => 0);
      var i := 0;
      while i < mapSize
        invariant 0 <= i <= mapSize
      {
        var b: byte :| true;
        bytes[i], i := b, i + 1;
      }
      shared := bytes[..];
    }
  }
}
