/** `compress_file` (contents/salt_file_copier.py): a generator that reads a
    file one window of `chunk_size` bytes at a time and yields each window
    compressed on its own, so that the chunks can be sent one by one and
    decompressed and joined again on the remote host. */
module Compressor {
  import opened Results
  import opened PyValue

  /** The first two bytes of every gzip member. */
  const GzipMagic: seq<byte> := [0x1f, 0x8b]

  /** One window compressed on its own. The deflate coding itself is not part
      of this model: a chunk is the gzip magic followed by the window, which
      keeps the one property the transfer relies on, that each chunk
      decompresses to its window. */
  function Compress(window: seq<byte>): (chunk: seq<byte>)
    ensures |chunk| >= |GzipMagic| && chunk[..|GzipMagic|] == GzipMagic
  {
    GzipMagic + window
  }

  function Decompress(chunk: seq<byte>): Option<seq<byte>> {
    if |chunk| >= |GzipMagic| && chunk[..|GzipMagic|] == GzipMagic then Some(chunk[|GzipMagic|..])
    else None
  }

  /** Every chunk decompresses to the window it was made of. */
  lemma DecompressCompress(window: seq<byte>)
    ensures Decompress(Compress(window)) == Some(window)
  {
    assert Compress(window)[|GzipMagic|..] == window;
  }

  /** `f.read(n)` on what is left of a file: everything for a negative `n`. */
  function Take(rest: seq<byte>, n: int): (r: seq<byte>)
    ensures r <= rest
    ensures n < 0 || |rest| <= n ==> r == rest
    ensures 0 <= n <= |rest| ==> |r| == n
  {
    if n < 0 || |rest| <= n then rest else rest[..n]
  }

  /** The windows `compress_file` reads from `content` with chunk size `n`:
      full windows of `n` bytes until a read comes back short, that short read
      included (so a length that is a multiple of `n` ends in an empty window),
      or the whole file at once for a negative `n`. */
  function Windows(content: seq<byte>, n: int): seq<seq<byte>>
    requires n != 0
    decreases |content|
  {
    if n < 0 || |content| < n then [content]
    else [content[..n]] + Windows(content[n..], n)
  }

  /** The first window is one read of `n` bytes; the windows after it are
      those of what is left, unless that read came back short. */
  lemma WindowsStep(rest: seq<byte>, n: int)
    requires n != 0
    ensures var ws := Windows(rest, n);
      ws != [] && ws[0] == Take(rest, n) &&
      ws[1..] == if |Take(rest, n)| == n then Windows(rest[n..], n) else []
  {
  }

  /** Reading the next window of what is left moves it from the pending
      windows to those read. */
  lemma WindowRead(read: seq<seq<byte>>, contents: seq<byte>, rest: seq<byte>, n: int)
    requires n != 0 && read + Windows(rest, n) == Windows(contents, n)
    ensures var window := Take(rest, n);
      var pending := if |window| == n then Windows(rest[|window|..], n) else [];
      Windows(rest, n) != [] && Windows(rest, n)[0] == window && Windows(rest, n)[1..] == pending &&
      (read + [window]) + pending == Windows(contents, n)
  {
    var ws := Windows(rest, n);
    WindowsStep(rest, n);
    assert [ws[0]] + ws[1..] == ws;
    assert (read + [ws[0]]) + ws[1..] == read + ws;
  }

  function Flatten(windows: seq<seq<byte>>): seq<byte> {
    if windows == [] then [] else windows[0] + Flatten(windows[1..])
  }

  lemma {:induction false} FlattenAppend(windows: seq<seq<byte>>, w: seq<byte>)
    ensures Flatten(windows + [w]) == Flatten(windows) + w
  {
    if windows != [] {
      assert (windows + [w])[1..] == windows[1..] + [w];
      FlattenAppend(windows[1..], w);
    }
  }

  lemma {:induction false} MulAtLeast(n: int, d: int)
    requires n > 0 && d >= 1
    ensures n * d >= n
    decreases d
  {
    if d > 1 {
      MulAtLeast(n, d - 1);
      assert n * d == n * (d - 1) + n;
    }
  }

  lemma MulAwayFromZero(n: int, d: int)
    requires n > 0
    ensures d >= 1 ==> n * d >= n
    ensures d <= -1 ==> n * d <= -n
  {
    if d >= 1 {
      MulAtLeast(n, d);
    } else if d <= -1 {
      MulAtLeast(n, -d);
      assert n * d == -(n * -d);
    }
  }

  lemma DivUnique(a: int, n: int, q: int, r: int)
    requires n > 0 && a == n * q + r && 0 <= r < n
    ensures a / n == q && a % n == r
  {
    var q', r' := a / n, a % n;
    assert a == n * q' + r' && 0 <= r' < n;
    assert n * (q - q') == n * q - n * q';
    MulAwayFromZero(n, q - q');
  }

  lemma DivMinus(a: int, n: int)
    requires n > 0 && a >= n
    ensures (a - n) / n == a / n - 1 && (a - n) % n == a % n
  {
    var q, r := a / n, a % n;
    assert a == n * q + r && 0 <= r < n;
    assert n * (q - 1) == n * q - n;
    DivUnique(a - n, n, q - 1, r);
  }

  /** A positive chunk size gives `L div n + 1` windows for `L` bytes. */
  lemma {:induction false} WindowCount(content: seq<byte>, n: int)
    requires n > 0
    ensures |Windows(content, n)| == |content| / n + 1
    decreases |content|
  {
    if |content| >= n {
      WindowCount(content[n..], n);
      DivMinus(|content|, n);
    } else {
      DivUnique(|content|, n, 0, |content|);
    }
  }

  /** Every window but the last holds exactly `n` bytes. */
  lemma {:induction false} FullWindows(content: seq<byte>, n: int)
    requires n > 0
    ensures forall i :: 0 <= i < |Windows(content, n)| - 1 ==> |Windows(content, n)[i]| == n
    decreases |content|
  {
    if |content| >= n {
      FullWindows(content[n..], n);
      var ws, rest := Windows(content, n), Windows(content[n..], n);
      assert ws == [content[..n]] + rest;
      forall i | 1 <= i < |ws| - 1 ensures |ws[i]| == n {
        assert ws[i] == rest[i - 1];
      }
    }
  }

  /** The last window holds the `L mod n` bytes left over. */
  lemma {:induction false} LastWindow(content: seq<byte>, n: int)
    requires n > 0
    ensures |Windows(content, n)[|Windows(content, n)| - 1]| == |content| % n
    decreases |content|
  {
    if |content| >= n {
      LastWindow(content[n..], n);
      var ws, rest := Windows(content, n), Windows(content[n..], n);
      assert ws == [content[..n]] + rest;
      assert ws[|ws| - 1] == rest[|rest| - 1];
      DivMinus(|content|, n);
    } else {
      DivUnique(|content|, n, 0, |content|);
    }
  }

  /** The windows, joined, are the file. */
  lemma {:induction false} WindowsCover(content: seq<byte>, n: int)
    requires n != 0
    ensures Flatten(Windows(content, n)) == content
    decreases |content|
  {
    if n > 0 && |content| >= n {
      WindowsCover(content[n..], n);
      var ws := Windows(content, n);
      assert ws[0] == content[..n] && ws[1..] == Windows(content[n..], n);
      assert content == content[..n] + content[n..];
    } else {
      assert Flatten([content]) == content + Flatten([]);
    }
  }

  /** The chunks a sequence of windows is sent as. */
  function CompressEach(windows: seq<seq<byte>>): (chunks: seq<seq<byte>>)
    ensures |chunks| == |windows|
  {
    seq(|windows|, i requires 0 <= i < |windows| => Compress(windows[i]))
  }

  /** One more window adds its chunk at the end. */
  lemma CompressEachAppend(windows: seq<seq<byte>>, w: seq<byte>)
    ensures CompressEach(windows + [w]) == CompressEach(windows) + [Compress(w)]
  {
  }

  /** What the receiving side rebuilds: every chunk decompressed, then joined;
      `None` when some chunk does not decompress. */
  function Reassemble(chunks: seq<seq<byte>>): Option<seq<byte>> {
    if chunks == [] then Some([])
    else
      match Decompress(chunks[0])
      case None => None
      case Some(w) =>
        match Reassemble(chunks[1..])
        case None => None
        case Some(rest) => Some(w + rest)
  }

  lemma {:induction false} ReassembleEach(windows: seq<seq<byte>>)
    ensures Reassemble(CompressEach(windows)) == Some(Flatten(windows))
  {
    if windows != [] {
      DecompressCompress(windows[0]);
      assert CompressEach(windows)[1..] == CompressEach(windows[1..]);
      ReassembleEach(windows[1..]);
    }
  }

  /** Decompressing every chunk of a file and joining the results gives the
      file back, whatever the chunk size. */
  lemma ChunksRoundTrip(content: seq<byte>, n: int)
    requires n != 0
    ensures Reassemble(CompressEach(Windows(content, n))) == Some(content)
  {
    ReassembleEach(Windows(content, n));
    WindowsCover(content, n);
  }

  /** The file `compress_file` reads: given as a path, it is opened on the
      first read. `wasOpened` and `closed` record whether `open` and `close`
      have been called on it. */
  class Source {
    const path: string
    const contents: seq<byte>
    var pos: nat
    var wasOpened: bool
    var closed: bool

    predicate Valid()
      reads this
    {
      pos <= |contents| && (!wasOpened ==> pos == 0 && !closed)
    }

    /** What is left to read. */
    function Rest(): seq<byte>
      reads this
      requires Valid()
    {
      contents[pos..]
    }

    constructor (path: string, contents: seq<byte>)
      ensures Valid() && this.path == path && this.contents == contents
      ensures pos == 0 && !wasOpened && !closed
    {
      this.path := path;
      this.contents := contents;
      pos := 0;
      wasOpened := false;
      closed := false;
    }

    /** `open(path, "rb")`. */
    method Open()
      requires Valid() && !wasOpened
      modifies this
      ensures Valid() && wasOpened && !closed && pos == 0
    {
      wasOpened := true;
    }

    /** `f.read(n)`: the next `n` bytes, fewer at the end of the file, and all
        of the rest for a negative `n`. */
    method Read(n: int) returns (data: seq<byte>)
      requires Valid() && wasOpened && !closed
      modifies this
      ensures Valid() && wasOpened && !closed
      ensures data == Take(old(Rest()), n) && pos == old(pos) + |data|
    {
      data := Take(contents[pos..], n);
      pos := pos + |data|;
    }

    /** `file_obj.close()` in `finally`: a path that was never opened has no
        `close`, and the `AttributeError` is ignored. */
    method Close()
      requires Valid()
      modifies this
      ensures Valid() && wasOpened == old(wasOpened) && pos == old(pos)
      ensures closed == wasOpened
    {
      if wasOpened {
        closed := true;
      }
    }
  }

  /** The `chunk_size` argument: an integer, a float, or a string. */
  datatype ChunkSize = IntSize(n: int) | FloatSize(x: real) | TextSize(s: string)

  /** `int(x) == x` for a float. */
  predicate IsIntegral(x: real) {
    x.Floor as real == x
  }

  /** The two exceptions the generator raises: `ValueError("chunk_size must be
      an integer")`, and the `TypeError` of reading a float number of bytes. */
  datatype StreamError = ChunkSizeNotInteger | ReadSizeNotInteger

  /** Where the generator is: not started, suspended at `yield` with the
      `bytes_read` of the last read, or finished. */
  datatype Phase = NotStarted | Suspended(bytesRead: int) | Finished

  /** What `next()` gives: a chunk, `StopIteration`, or an exception. */
  datatype Step = Yielded(chunk: seq<byte>) | Exhausted | Raised(error: StreamError)

  /** The generator object `compress_file(src, chunk_size=...)`. */
  class ChunkStream {
    const source: Source
    const chunkSize: ChunkSize
    var phase: Phase
    /** The windows read so far, one per chunk yielded. */
    ghost var windows: seq<seq<byte>>
    /** Whether the generator was closed before it ran out of windows. */
    ghost var closedEarly: bool

    /** The windows still to be yielded, for a nonzero integer chunk size. */
    ghost function Pending(): seq<seq<byte>>
      reads this, source
      requires chunkSize.IntSize? && chunkSize.n != 0 && source.Valid()
    {
      match phase
      case NotStarted => Windows(source.contents, chunkSize.n)
      case Suspended(b) => if b == chunkSize.n then Windows(source.Rest(), chunkSize.n) else []
      case Finished => []
    }

    ghost predicate Valid()
      reads this, source
    {
      source.Valid() &&
      (phase.NotStarted? ==> !source.wasOpened && windows == [] && !closedEarly) &&
      (phase.Suspended? ==> chunkSize.IntSize? && source.wasOpened && !source.closed && !closedEarly) &&
      (phase.Finished? ==> (source.wasOpened ==> source.closed)) &&
      (chunkSize == IntSize(0) && phase.Suspended? ==> phase.bytesRead == 0) &&
      (chunkSize.IntSize? && chunkSize.n != 0 && !closedEarly ==>
        windows + Pending() == Windows(source.contents, chunkSize.n))
    }

    /** How many more steps the generator takes, for a nonzero chunk size. */
    ghost function Budget(): nat
      reads this, source
      requires Valid() && chunkSize != IntSize(0)
    {
      match phase
      case NotStarted => if chunkSize.IntSize? then |Pending()| + 1 else 1
      case Suspended(_) => |Pending()| + 1
      case Finished => 0
    }

    constructor (source: Source, chunkSize: ChunkSize)
      requires source.Valid() && !source.wasOpened
      ensures Valid() && this.source == source && this.chunkSize == chunkSize
      ensures phase == NotStarted && windows == [] && !closedEarly
    {
      this.source := source;
      this.chunkSize := chunkSize;
      phase := NotStarted;
      windows := [];
      closedEarly := false;
    }

    /** One pass of the `while` body: read a window (opening the path on the
        first read) and yield it compressed. */
    method ReadWindow() returns (step: Step)
      requires Valid() && chunkSize.IntSize?
      requires phase.NotStarted? || phase == Suspended(chunkSize.n)
      modifies this, source
      ensures Valid() && closedEarly == old(closedEarly) && phase.Suspended?
      ensures chunkSize.n != 0 ==>
        (old(Pending()) != [] && step == Yielded(Compress(old(Pending())[0])) &&
         windows == old(windows) + [old(Pending())[0]] && Pending() == old(Pending())[1..])
      ensures chunkSize.n == 0 ==> step == Yielded(Compress([])) && phase == Suspended(0)
    {
      var n := chunkSize.n;
      ghost var before := if n != 0 then Pending() else [];
      if !source.wasOpened {
        source.Open();
      }
      ghost var rest := source.Rest();
      var window := source.Read(n);
      windows := windows + [window];
      phase := Suspended(|window|);
      step := Yielded(Compress(window));
      if n != 0 {
        assert before == Windows(rest, n);
        assert source.Rest() == rest[|window|..];
        WindowRead(old(windows), source.contents, rest, n);
        assert Pending() == before[1..];
      }
    }

    /** `next()` on the generator. */
    method Next() returns (step: Step)
      requires Valid()
      modifies this, source
      ensures Valid() && closedEarly == old(closedEarly)
      ensures old(phase).Finished? ==> step == Exhausted && phase.Finished? && unchanged(source)
      ensures step.Raised? <==> old(phase).NotStarted? && !chunkSize.IntSize?
      ensures step.Yielded? ==> phase.Suspended?
      ensures step.Raised? ==> phase.Finished?
      ensures step.Raised? ==>
        step.error == (if chunkSize.FloatSize? && IsIntegral(chunkSize.x) then ReadSizeNotInteger else ChunkSizeNotInteger)
      ensures step == Raised(ChunkSizeNotInteger) ==> unchanged(source)
      ensures chunkSize.IntSize? && chunkSize.n != 0 && !closedEarly ==>
        (step.Yielded? <==> old(Pending()) != []) &&
        (step.Yielded? ==>
          step.chunk == Compress(old(Pending())[0]) &&
          windows == old(windows) + [old(Pending())[0]] && Pending() == old(Pending())[1..]) &&
        (!step.Yielded? ==> phase.Finished?)
      ensures chunkSize == IntSize(0) && !old(phase).Finished? ==> step == Yielded(Compress([])) && phase == Suspended(0)
      ensures chunkSize != IntSize(0) && !old(phase).Finished? ==> Budget() < old(Budget())
    {
      match phase {
        case Finished =>
          step := Exhausted;
        case NotStarted =>
          match chunkSize {
            case IntSize(n) =>
              step := ReadWindow();
            case FloatSize(x) =>
              if !IsIntegral(x) {
                phase := Finished;
                step := Raised(ChunkSizeNotInteger);
              } else {
                source.Open();
                source.Close();
                phase := Finished;
                step := Raised(ReadSizeNotInteger);
              }
            case TextSize(_) =>
              phase := Finished;
              step := Raised(ChunkSizeNotInteger);
          }
        case Suspended(b) =>
          if b == chunkSize.n {
            step := ReadWindow();
          } else {
            source.Close();
            phase := Finished;
            step := Exhausted;
          }
      }
    }

    /** `close()` on the generator, as happens when it is abandoned: a
        suspended generator runs its `finally` and closes the file. */
    method Close()
      requires Valid()
      modifies this, source
      ensures Valid() && phase.Finished?
      ensures source.wasOpened ==> source.closed
      ensures old(phase).Suspended? ==> source.closed
      ensures !old(phase).Suspended? ==> unchanged(source)
    {
      if phase.Suspended? {
        source.Close();
      }
      if !phase.Finished? {
        closedEarly := true;
      }
      phase := Finished;
    }
  }

  /** `list(compress_file(src, chunk_size))`: every chunk, or the exception
      the generator raised. The file ends up closed either way. */
  method CompressFile(source: Source, chunkSize: ChunkSize) returns (chunks: seq<seq<byte>>, error: Option<StreamError>)
    requires source.Valid() && !source.wasOpened
    requires chunkSize != IntSize(0)
    modifies source
    ensures source.Valid() && (source.wasOpened ==> source.closed)
    ensures chunkSize.IntSize? ==> error.None? && chunks == CompressEach(Windows(source.contents, chunkSize.n))
    ensures chunkSize.FloatSize? && IsIntegral(chunkSize.x) ==> chunks == [] && error == Some(ReadSizeNotInteger)
    ensures !chunkSize.IntSize? && !(chunkSize.FloatSize? && IsIntegral(chunkSize.x)) ==>
      chunks == [] && error == Some(ChunkSizeNotInteger) && unchanged(source)
  {
    var stream := new ChunkStream(source, chunkSize);
    chunks := [];
    error := None;
    while true
      invariant stream.Valid() && stream.source == source && stream.chunkSize == chunkSize
      invariant !stream.closedEarly && !stream.phase.Finished?
      invariant chunkSize.IntSize? ==> chunks == CompressEach(stream.windows)
      invariant !chunkSize.IntSize? ==> chunks == [] && stream.phase.NotStarted? && unchanged(source)
      decreases stream.Budget()
    {
      ghost var read := stream.windows;
      var step := stream.Next();
      match step {
        case Yielded(c) =>
          if chunkSize.IntSize? {
            CompressEachAppend(read, stream.windows[|read|]);
          }
          chunks := chunks + [c];
        case Exhausted =>
          if chunkSize.IntSize? {
            assert stream.windows + stream.Pending() == stream.windows;
          }
          return;
        case Raised(e) =>
          error := Some(e);
          return;
      }
    }
  }
}
