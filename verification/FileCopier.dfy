/** The `main` of contents/salt_file_copier.py: the Rundeck file copier that
    sends a local file to one minion as gzip chunks through `cp.recv_chunked`,
    one `low` call per chunk, stopping at the first chunk the minion refuses. */
module FileCopier {
  import opened Results
  import opened PyValue
  import opened PyStr
  import opened Common
  import opened SaltApi
  import opened Compressor

  const DefaultChunkSize := 1048576

  /** The variables the copier reads, in the order `parse_data` reads them. */
  const CopierItems: seq<DataItem> := [
    DataItem("host", "RD_NODE_HOSTNAME", "str"),
    DataItem("src", "RD_FILE_COPY_FILE", "str"),
    DataItem("dest", "RD_FILE_COPY_DESTINATION", "str"),
    DataItem("chunk-size", "RD_CONFIG_SALT_FILE_COPY_CHUNK_SIZE", "int"),
    DataItem("url", "RD_CONFIG_URL", "str"),
    DataItem("eauth", "RD_CONFIG_EAUTH", "str"),
    DataItem("user", "RD_CONFIG_USER", "str"),
    DataItem("password", "RD_CONFIG_PASSWORD", "str"),
    DataItem("verify_ssl", "RD_CONFIG_VERIFYSSL", "bool"),
    DataItem("log-level", "RD_JOB_LOGLEVEL", "str")
  ]

  /** The settings that must be truthy before anything is sent. */
  const RequiredKeys: seq<string> := ["host", "src", "dest", "url", "eauth", "user", "password"]

  /** The settings `main` works on, as `parse_data` leaves them: every key
      present, the paths and the host strings or `None`, the chunk size an
      integer, `None`, or the empty string the code also accepts. */
  predicate CopierData(data: map<string, Setting>) {
    "host" in data && "src" in data && "dest" in data && "chunk-size" in data &&
    "url" in data && "eauth" in data && "user" in data && "password" in data &&
    "verify_ssl" in data && "log-level" in data &&
    (data["host"].Unset? || data["host"].Text?) &&
    (data["src"].Unset? || data["src"].Text?) &&
    (data["dest"].Unset? || data["dest"].Text?) &&
    (data["chunk-size"].Unset? || data["chunk-size"].Number? || data["chunk-size"].Text?) &&
    (forall i :: 0 <= i < |RequiredKeys| ==> RequiredKeys[i] in data)
  }

  /** The required keys are among the keys every parse yields. */
  lemma RequiredPresent(data: map<string, Setting>)
    requires "host" in data && "src" in data && "dest" in data
    requires "url" in data && "eauth" in data && "user" in data && "password" in data
    ensures forall i :: 0 <= i < |RequiredKeys| ==> RequiredKeys[i] in data
  {
  }

  /** The keys of `CopierItems` and the types of the first four. */
  predicate CopierLayout(items: seq<DataItem>) {
    |items| == 10 &&
    items[0].key == "host" && items[1].key == "src" && items[2].key == "dest" && items[3].key == "chunk-size" &&
    items[4].key == "url" && items[5].key == "eauth" && items[6].key == "user" && items[7].key == "password" &&
    items[8].key == "verify_ssl" && items[9].key == "log-level" &&
    items[0].dataType == "str" && items[1].dataType == "str" && items[2].dataType == "str" && items[3].dataType == "int"
  }

  /** `CopierItems` is laid out as `CopierLayout` says. */
  lemma CopierItemsLayout()
    ensures CopierLayout(CopierItems)
  {
  }

  /** No later item has the key of one of the first four, whose first letters
      no other key shares. */
  lemma CopierKeysLast(items: seq<DataItem>)
    requires CopierLayout(items)
    ensures LastWith(items, 0) && LastWith(items, 1)
    ensures LastWith(items, 2) && LastWith(items, 3)
  {
    var initials := [items[0].key[0], items[1].key[0], items[2].key[0], items[3].key[0], items[4].key[0],
      items[5].key[0], items[6].key[0], items[7].key[0], items[8].key[0], items[9].key[0]];
    assert initials == "hsdcueupvl";
    forall i, j | 0 <= i < 4 && i < j < |items| ensures items[j].key != items[i].key {
      assert items[j].key[0] == initials[j] && items[i].key[0] == initials[i];
    }
  }

  /** A successful parse of items laid out as `CopierItems` gives settings
      of the shape `main` works on. */
  lemma ParsedLayout(items: seq<DataItem>, env: map<string, string>, lexer: Lexer)
    requires CopierLayout(items) && Parsed(items, env, lexer).Ok?
    ensures CopierData(Parsed(items, env, lexer).value)
  {
    ParsedHasKeys(items, env, lexer);
    var d := Parsed(items, env, lexer).value;
    assert items[0].key in d && items[1].key in d && items[2].key in d && items[3].key in d && items[4].key in d;
    assert items[5].key in d && items[6].key in d && items[7].key in d && items[8].key in d && items[9].key in d;
    RequiredPresent(d);
    CopierKeysLast(items);
    ParsedShapedAt(items, env, lexer, 0);
    ParsedShapedAt(items, env, lexer, 1);
    ParsedShapedAt(items, env, lexer, 2);
    ParsedShapedAt(items, env, lexer, 3);
  }

  /** Whatever the environment holds, a successful `parse_data` gives
      settings of that shape. */
  lemma ParsedCopierData(env: map<string, string>, lexer: Lexer)
    requires Parsed(CopierItems, env, lexer).Ok?
    ensures CopierData(Parsed(CopierItems, env, lexer).value)
  {
    CopierItemsLayout();
    ParsedLayout(CopierItems, env, lexer);
  }

  /** The chunk size handed to `compress_file`: 1048576 when unset or empty. */
  function ChunkSizeOf(v: Setting): (size: ChunkSize)
    ensures v.Unset? || v == Text("") ==> size == IntSize(DefaultChunkSize)
    ensures v.Number? ==> size == IntSize(v.i)
    ensures v.Text? && v.s != "" ==> size == TextSize(v.s)
  {
    match v
    case Number(n) => IntSize(n)
    case Text(s) => if s == "" then IntSize(DefaultChunkSize) else TextSize(s)
    case _ => IntSize(DefaultChunkSize)
  }

  /** The `cp.recv_chunked` request for the chunk with 1-based `index`: the
      destination, the chunk's base64 text, whether to append, that the chunk
      is gzipped, and the file mode, which `file_mode` always gives as `None`
      (`int()` rejects the `0o` prefix `oct()` puts on the mode). */
  function ChunkRequest(host: string, dest: string, chunk: seq<byte>, index: int): LowState {
    LowState("local", Str(host), "cp.recv_chunked",
      [Plain(Str(dest)), Encoded(chunk), Plain(Bool(index > 1)), Plain(Bool(true)), Plain(Null)],
      None, true)
  }

  /** The minion took the chunk: the reply's `retcode` (1 when the host is
      missing from it) equals 0. */
  predicate Acknowledged(response: Response, host: string) {
    response.Answered? &&
    MinionField(response.body, host, "retcode", Int(1)).Some? &&
    !IsNonZero(MinionField(response.body, host, "retcode", Int(1)).value)
  }

  /** Why the transfer stopped at a chunk: the API raised, the response had an
      unexpected shape (Python raises while reading it), or the minion
      answered with a nonzero `retcode`. */
  datatype Cause = TransportError(message: string) | MalformedReply | Refused(code: Value)

  datatype Delivery = Delivered | Stopped(index: int, cause: Cause)

  datatype Transfer = Transfer(sent: seq<LowState>, delivery: Delivery)

  /** What the response to a chunk means for the transfer: `None` when the
      minion took the chunk, otherwise why the transfer stops there. */
  function Verdict(response: Response, host: string): (cause: Option<Cause>)
    ensures cause.None? <==> Acknowledged(response, host)
    ensures cause.Some? && cause.value.Refused? ==> IsNonZero(cause.value.code)
  {
    match response
    case Raised(message) => Some(TransportError(message))
    case Answered(body) =>
      (match MinionField(body, host, "retcode", Int(1))
       case None => Some(MalformedReply)
       case Some(code) => if IsNonZero(code) then Some(Refused(code)) else None)
  }

  /** The `for index, chunk in enumerate(...)` loop from the chunk numbered
      `index` on, after the requests `sent`. */
  function Deliver(chunks: seq<seq<byte>>, index: int, host: string, dest: string,
                   answer: seq<LowState> -> Response, sent: seq<LowState>): (t: Transfer)
    ensures t.delivery.Stopped? ==> index <= t.delivery.index < index + |chunks|
    ensures t.delivery.Stopped? && t.delivery.cause.Refused? ==> IsNonZero(t.delivery.cause.code)
    decreases |chunks|
  {
    if chunks == [] then Transfer(sent, Delivered)
    else
      var sent' := sent + [ChunkRequest(host, dest, chunks[0], index)];
      match Verdict(answer(sent'), host)
      case Some(cause) => Transfer(sent', Stopped(index, cause))
      case None => Deliver(chunks[1..], index + 1, host, dest, answer, sent')
  }

  /** How many chunks a transfer from `index` sent: all of them, or those up
      to the one it stopped at. */
  function SentCount(t: Transfer, chunks: seq<seq<byte>>, index: int): int {
    if t.delivery.Delivered? then |chunks| else t.delivery.index - index + 1
  }

  /** The chunks are sent in order, numbered on from `index`, and none after
      the one the transfer stopped at. */
  lemma {:induction false} DeliverSends(chunks: seq<seq<byte>>, index: int, host: string, dest: string,
                                        answer: seq<LowState> -> Response, sent: seq<LowState>)
    ensures var t := Deliver(chunks, index, host, dest, answer, sent);
      var k := SentCount(t, chunks, index);
      (t.delivery.Stopped? ==> 1 <= k <= |chunks|) &&
      |t.sent| == |sent| + k && t.sent[..|sent|] == sent &&
      forall j :: |sent| <= j < |t.sent| ==> t.sent[j] == ChunkRequest(host, dest, chunks[j - |sent|], index + j - |sent|)
    decreases |chunks|
  {
    if chunks != [] {
      var sent' := sent + [ChunkRequest(host, dest, chunks[0], index)];
      var t := Deliver(chunks, index, host, dest, answer, sent);
      var rest := Deliver(chunks[1..], index + 1, host, dest, answer, sent');
      DeliverSends(chunks[1..], index + 1, host, dest, answer, sent');
      if t == rest {
        assert t.sent[..|sent'|] == sent';
        assert t.sent[..|sent|] == sent'[..|sent|];
        forall j | |sent| <= j < |t.sent|
          ensures t.sent[j] == ChunkRequest(host, dest, chunks[j - |sent|], index + j - |sent|)
        {
          if j == |sent| {
            assert t.sent[j] == sent'[j];
          } else {
            assert chunks[1..][j - |sent'|] == chunks[j - |sent|];
          }
        }
      }
    }
  }

  /** The reply to the request that made `sent` `j + 1` requests long
      acknowledged its chunk. */
  predicate AckedAt(answer: seq<LowState> -> Response, sent: seq<LowState>, j: int, host: string)
    requires 0 <= j < |sent|
  {
    Acknowledged(answer(sent[..j + 1]), host)
  }

  /** Every reply but the last acknowledged its chunk, and the transfer is
      complete exactly when every reply acknowledged its chunk. */
  lemma {:induction false} DeliverAcknowledged(chunks: seq<seq<byte>>, index: int, host: string, dest: string,
                                               answer: seq<LowState> -> Response, sent: seq<LowState>)
    ensures var t := Deliver(chunks, index, host, dest, answer, sent);
      |sent| <= |t.sent| && t.sent[..|sent|] == sent &&
      (forall j :: |sent| <= j < |t.sent| - 1 ==> AckedAt(answer, t.sent, j, host)) &&
      (t.delivery.Delivered? <==> forall j :: |sent| <= j < |t.sent| ==> AckedAt(answer, t.sent, j, host))
    decreases |chunks|
  {
    var t := Deliver(chunks, index, host, dest, answer, sent);
    if chunks != [] {
      var sent' := sent + [ChunkRequest(host, dest, chunks[0], index)];
      var rest := Deliver(chunks[1..], index + 1, host, dest, answer, sent');
      DeliverAcknowledged(chunks[1..], index + 1, host, dest, answer, sent');
      if Acknowledged(answer(sent'), host) {
        assert t == rest;
        assert t.sent[..|sent'|] == sent';
        assert t.sent[..|sent| + 1] == sent';
        assert AckedAt(answer, t.sent, |sent|, host);
      } else {
        assert t.sent == sent' && t.delivery.Stopped?;
        assert t.sent[..|sent| + 1] == sent';
        assert !AckedAt(answer, t.sent, |sent|, host);
      }
    }
  }

  const PublishFailedHead := "Publish failed."
  const PartialNote := " File partially transferred."

  /** The advice that ends the failure message. */
  function Advice(size: int): string {
    " It may be necessary to" + " decrease the chunk-size (current value: " + DecimalString(size) + ")"
  }

  /** The message the copier logs when a chunk is refused. */
  function PublishFailed(index: int, size: int): string {
    PublishFailedHead + (if index > 1 then PartialNote else "") + Advice(size)
  }

  predicate StartsWith(s: string, prefix: string) {
    |prefix| <= |s| && s[..|prefix|] == prefix
  }

  /** The failure message says the file was partially transferred exactly
      when a chunk before the refused one went through. */
  lemma PartialNoteIff(index: int, size: int)
    ensures index > 1 <==> StartsWith(PublishFailed(index, size), PublishFailedHead + PartialNote)
  {
    AdviceOpens(size);
    assert PartialNote[1] == 'F';
    NoteMarks(PublishFailedHead, PartialNote, Advice(size), index > 1);
  }

  /** The advice opens with " I", whatever the chunk size. */
  lemma AdviceOpens(size: int)
    ensures |Advice(size)| >= 2 && Advice(size)[1] == 'I'
  {
    var advice := Advice(size);
    assert advice == " It may be necessary to" + (" decrease the chunk-size (current value: " + DecimalString(size) + ")");
  }

  /** A note between a head and a tail that differs from the tail in its
      second character marks exactly the messages that carry it. */
  lemma NoteMarks(head: string, note: string, tail: string, flag: bool)
    requires |note| >= 2 && |tail| >= 2 && note[1] != tail[1]
    ensures flag <==> StartsWith(head + (if flag then note else "") + tail, head + note)
  {
    if flag {
      assert (head + note + tail)[..|head + note|] == head + note;
    } else {
      assert (head + "" + tail)[|head| + 1] == tail[1];
      assert (head + note)[|head| + 1] == note[1];
    }
  }

  /** What one run of `main` leaves behind: the lines printed to standard
      output and to standard error, the exit status, the login made and the
      requests sent. */
  datatype CopyRun = CopyRun(
    stdout: seq<string>,
    stderr: seq<string>,
    status: int,
    login: Option<Credentials>,
    sent: seq<LowState>)

  function DestLine(data: map<string, Setting>): string
    requires CopierData(data)
  {
    if data["dest"].Text? then data["dest"].s else ""
  }

  function MissingMessage(key: string): string {
    "No " + key + " specified. File not sent."
  }

  function UnreadableMessage(src: string): string {
    "The specified source file is not readable: " + src
  }

  /** When every required setting is truthy, the host and both paths are strings. */
  lemma RequiredAreText(data: map<string, Setting>)
    requires CopierData(data)
    requires FirstFalsy(data, RequiredKeys).None?
    ensures data["host"].Text? && data["src"].Text? && data["dest"].Text?
  {
    assert RequiredKeys[0] == "host" && RequiredKeys[1] == "src" && RequiredKeys[2] == "dest";
  }

  function LoginOf(data: map<string, Setting>): Credentials
    requires CopierData(data)
  {
    Credentials(SettingValue(data["user"]), SettingValue(data["password"]), SettingValue(data["eauth"]))
  }

  /** Every check passes and the API accepts the login: the chunks are sent. */
  predicate Ready(data: map<string, Setting>, normpath: string -> string, disk: map<string, seq<byte>>,
                  loginError: Option<string>)
    requires CopierData(data)
  {
    FirstFalsy(data, RequiredKeys).None? &&
    (RequiredAreText(data); normpath(data["src"].s) in disk) &&
    loginError.None? &&
    ChunkSizeOf(data["chunk-size"]).IntSize?
  }

  /** The bytes of the file a `Ready` run sends. */
  function SourceContent(data: map<string, Setting>, normpath: string -> string, disk: map<string, seq<byte>>,
                         loginError: Option<string>): seq<byte>
    requires CopierData(data)
    requires Ready(data, normpath, disk, loginError)
  {
    RequiredAreText(data);
    disk[normpath(data["src"].s)]
  }

  /** The chunk loop of a run that is `Ready`. */
  function CopyTransfer(data: map<string, Setting>, normpath: string -> string, disk: map<string, seq<byte>>,
                        loginError: Option<string>, answer: seq<LowState> -> Response): Transfer
    requires CopierData(data) && data["chunk-size"] != Number(0)
    requires Ready(data, normpath, disk, loginError)
  {
    RequiredAreText(data);
    var n := ChunkSizeOf(data["chunk-size"]).n;
    Deliver(CompressEach(Windows(disk[normpath(data["src"].s)], n)), 1,
      data["host"].s, normpath(data["dest"].s), answer, [])
  }

  /** How a run that sent chunks ends: `sys.exit(0)` after the last chunk,
      the exception's message and status 1 when the API raised, status 1 for
      a response Python cannot read, and the refused chunk's code after the
      failure message otherwise. */
  function Conclude(out: seq<string>, login: Credentials, t: Transfer, n: int): (run: CopyRun)
    ensures run.sent == t.sent && run.login == Some(login) && out <= run.stdout
    ensures run.status == 0 <==> t.delivery.Delivered? || (t.delivery.cause.Refused? && ExitStatus(t.delivery.cause.code) == 0)
  {
    match t.delivery
    case Delivered => CopyRun(out, [], 0, Some(login), t.sent)
    case Stopped(index, TransportError(message)) => CopyRun(out + [message], [], 1, Some(login), t.sent)
    case Stopped(index, MalformedReply) => CopyRun(out, [], 1, Some(login), t.sent)
    case Stopped(index, Refused(code)) => CopyRun(out, [PublishFailed(index, n)], ExitStatus(code), Some(login), t.sent)
  }

  /** A run of `main` from printing the destination on (lines 117-200). */
  function CopySpec(data: map<string, Setting>, normpath: string -> string, disk: map<string, seq<byte>>,
                    loginError: Option<string>, answer: seq<LowState> -> Response): (run: CopyRun)
    requires CopierData(data) && data["chunk-size"] != Number(0)
    ensures |run.stdout| >= 1 && run.stdout[0] == DestLine(data)
    ensures FirstFalsy(data, RequiredKeys).Some? ==>
      run.status == 1 && run.login.None? && run.sent == [] &&
      run.stderr == [MissingMessage(FirstFalsy(data, RequiredKeys).value), MissingMessage(FirstFalsy(data, RequiredKeys).value)]
    ensures run.sent != [] ==> Ready(data, normpath, disk, loginError)
  {
    var out := [DestLine(data)];
    match FirstFalsy(data, RequiredKeys)
    case Some(key) =>
      var msg := MissingMessage(key);
      CopyRun(out, [msg, msg], 1, None, [])
    case None =>
      RequiredAreText(data);
      var src := normpath(data["src"].s);
      if src !in disk then CopyRun(out, [UnreadableMessage(data["src"].s)], 1, None, [])
      else SessionRun(out, LoginOf(data), loginError, disk[src], ChunkSizeOf(data["chunk-size"]),
        data["host"].s, normpath(data["dest"].s), answer)
  }

  /** Lines 150-200, once the source is known to be readable: the login,
      then the chunk loop, or the generator's failure on a chunk size that is
      not an integer. */
  function SessionRun(out: seq<string>, login: Credentials, loginError: Option<string>, content: seq<byte>,
                      size: ChunkSize, host: string, dest: string, answer: seq<LowState> -> Response): (run: CopyRun)
    requires size != IntSize(0)
    ensures |out| >= 1 ==> |run.stdout| >= 1 && run.stdout[0] == out[0]
    ensures run.sent != [] ==> loginError.None? && size.IntSize?
  {
    if loginError.Some? then CopyRun(out + [loginError.value], [], 1, Some(login), [])
    else
      match size
      case IntSize(n) => Conclude(out, login, Deliver(CompressEach(Windows(content, n)), 1, host, dest, answer, []), n)
      case _ => CopyRun(out, [], 1, Some(login), [])
  }

  /** A run that gets past every check ends as its chunk loop does. */
  lemma ReadyRun(data: map<string, Setting>, normpath: string -> string, disk: map<string, seq<byte>>,
                 loginError: Option<string>, answer: seq<LowState> -> Response)
    requires CopierData(data) && data["chunk-size"] != Number(0)
    requires Ready(data, normpath, disk, loginError)
    ensures CopySpec(data, normpath, disk, loginError, answer) ==
      Conclude([DestLine(data)], LoginOf(data), CopyTransfer(data, normpath, disk, loginError, answer), ChunkSizeOf(data["chunk-size"]).n)
  {
  }

  /** The copier exits with 0 exactly when every chunk was acknowledged, or
      when a minion refused a chunk with a code `sys.exit` reports as
      success: `None`, or an integer whose low byte is zero. */
  lemma CopyStatusZero(data: map<string, Setting>, normpath: string -> string, disk: map<string, seq<byte>>,
                       loginError: Option<string>, answer: seq<LowState> -> Response)
    requires CopierData(data) && data["chunk-size"] != Number(0)
    ensures CopySpec(data, normpath, disk, loginError, answer).status == 0 <==>
      Ready(data, normpath, disk, loginError) &&
      (CopyTransfer(data, normpath, disk, loginError, answer).delivery.Delivered? ||
       (CopyTransfer(data, normpath, disk, loginError, answer).delivery.cause.Refused? &&
        var code := CopyTransfer(data, normpath, disk, loginError, answer).delivery.cause.code;
        code.Null? || (code.Int? && code.i % 256 == 0)))
  {
    if Ready(data, normpath, disk, loginError) {
      var d := CopyTransfer(data, normpath, disk, loginError, answer).delivery;
      if d.Stopped? && d.cause.Refused? {
        NonZeroExit(d.cause.code);
      }
    }
  }

  /** The base64 payloads of a run's requests, decoded. */
  function SentChunks(sent: seq<LowState>): seq<seq<byte>> {
    seq(|sent|, i requires 0 <= i < |sent| =>
      if |sent[i].arg| >= 2 && sent[i].arg[1].Encoded? then sent[i].arg[1].bytes else [])
  }

  /** Requests numbered from 1 carry their chunks in order, and only the
      first of them overwrites the destination. */
  lemma RequestsCarry(host: string, dest: string, chunks: seq<seq<byte>>, sent: seq<LowState>)
    requires |sent| == |chunks|
    requires forall j :: 0 <= j < |sent| ==> sent[j] == ChunkRequest(host, dest, chunks[j], 1 + j)
    ensures SentChunks(sent) == chunks
    ensures forall i :: 0 <= i < |sent| ==> |sent[i].arg| == 5 && sent[i].arg[2] == Plain(Bool(i > 0))
  {
  }

  /** A complete transfer sends one request per window, the first writing the
      file and every later one appending to it, and the remote host rebuilds
      the source file from the chunks. */
  lemma CopyDelivers(data: map<string, Setting>, normpath: string -> string, disk: map<string, seq<byte>>,
                     loginError: Option<string>, answer: seq<LowState> -> Response)
    requires CopierData(data) && data["chunk-size"] != Number(0)
    requires Ready(data, normpath, disk, loginError)
    requires CopyTransfer(data, normpath, disk, loginError, answer).delivery.Delivered?
    ensures var run := CopySpec(data, normpath, disk, loginError, answer);
      var content := SourceContent(data, normpath, disk, loginError);
      |run.sent| == |Windows(content, ChunkSizeOf(data["chunk-size"]).n)| &&
      (forall i :: 0 <= i < |run.sent| ==> |run.sent[i].arg| == 5 && run.sent[i].arg[2] == Plain(Bool(i > 0))) &&
      Reassemble(SentChunks(run.sent)) == Some(content)
  {
    ReadyRun(data, normpath, disk, loginError, answer);
    RequiredAreText(data);
    var content := disk[normpath(data["src"].s)];
    var n := ChunkSizeOf(data["chunk-size"]).n;
    var chunks := CompressEach(Windows(content, n));
    var host, dest := data["host"].s, normpath(data["dest"].s);
    DeliverSends(chunks, 1, host, dest, answer, []);
    RequestsCarry(host, dest, chunks, CopyTransfer(data, normpath, disk, loginError, answer).sent);
    ChunksRoundTrip(content, n);
  }

  /** A transfer that stops sends as many requests as the number of the
      chunk it stops at, and only the last of them goes unacknowledged. */
  lemma DeliverStopped(chunks: seq<seq<byte>>, host: string, dest: string, answer: seq<LowState> -> Response)
    requires Deliver(chunks, 1, host, dest, answer, []).delivery.Stopped?
    ensures var t := Deliver(chunks, 1, host, dest, answer, []);
      |t.sent| == t.delivery.index &&
      !Acknowledged(answer(t.sent), host) &&
      forall j :: 0 <= j < |t.sent| - 1 ==> AckedAt(answer, t.sent, j, host)
  {
    DeliverSends(chunks, 1, host, dest, answer, []);
    DeliverAcknowledged(chunks, 1, host, dest, answer, []);
    var sent := Deliver(chunks, 1, host, dest, answer, []).sent;
    assert sent[..|sent|] == sent;
  }

  /** When a chunk is refused, nothing after it is sent, the exit status is the
      minion's code, and the message says whether earlier chunks got through. */
  lemma CopyStopsAtRefusal(data: map<string, Setting>, normpath: string -> string, disk: map<string, seq<byte>>,
                           loginError: Option<string>, answer: seq<LowState> -> Response)
    requires CopierData(data) && data["chunk-size"] != Number(0)
    requires Ready(data, normpath, disk, loginError)
    requires CopyTransfer(data, normpath, disk, loginError, answer).delivery.Stopped?
    ensures var d := CopyTransfer(data, normpath, disk, loginError, answer).delivery;
      var run := CopySpec(data, normpath, disk, loginError, answer);
      |run.sent| == d.index &&
      !Acknowledged(answer(run.sent), data["host"].s) &&
      (forall j :: 0 <= j < |run.sent| - 1 ==> AckedAt(answer, run.sent, j, data["host"].s)) &&
      (d.cause.Refused? ==>
        run.status == ExitStatus(d.cause.code) &&
        run.stderr == [PublishFailed(d.index, ChunkSizeOf(data["chunk-size"]).n)])
  {
    RequiredAreText(data);
    var content := disk[normpath(data["src"].s)];
    var n := ChunkSizeOf(data["chunk-size"]).n;
    DeliverStopped(CompressEach(Windows(content, n)), data["host"].s, normpath(data["dest"].s), answer);
    ReadyRun(data, normpath, disk, loginError, answer);
  }

  /** One turn of the loop: a chunk the minion takes leaves the rest of the
      transfer to the next chunk; any other answer ends it there. */
  lemma DeliverStep(windows: seq<seq<byte>>, index: int, host: string, dest: string,
                    answer: seq<LowState> -> Response, sent: seq<LowState>)
    requires windows != []
    ensures var sent' := sent + [ChunkRequest(host, dest, Compress(windows[0]), index)];
      var t := Deliver(CompressEach(windows), index, host, dest, answer, sent);
      match Verdict(answer(sent'), host)
      case None => t == Deliver(CompressEach(windows[1..]), index + 1, host, dest, answer, sent')
      case Some(cause) => t == Transfer(sent', Stopped(index, cause))
  {
    var chunks := CompressEach(windows);
    assert chunks[0] == Compress(windows[0]);
    assert chunks[1..] == CompressEach(windows[1..]);
  }

  /** Lines 160-198 for one chunk: the chunk is sent and the minion's
      `retcode` read from the reply. */
  method SendChunk(client: Client, host: string, dest: string, chunk: seq<byte>, index: int) returns (cause: Option<Cause>)
    modifies client
    ensures client.sent == old(client.sent) + [ChunkRequest(host, dest, chunk, index)] && client.login == old(client.login)
    ensures cause == Verdict(client.answer(client.sent), host)
  {
    var response := client.Low(ChunkRequest(host, dest, chunk, index));
    if response.Raised? {
      return Some(TransportError(response.message));
    }
    var code := MinionField(response.body, host, "retcode", Int(1));
    if code.None? {
      return Some(MalformedReply);
    }
    if IsNonZero(code.value) {
      return Some(Refused(code.value));
    }
    return None;
  }

  /** The `for index, chunk in enumerate(compress_file(...), start=1)` loop:
      each chunk is sent as it is read, and the loop stops at the first chunk
      that is not acknowledged. An early stop abandons the generator, which
      closes the file as it is finalised. */
  method SendChunks(client: Client, stream: ChunkStream, host: string, dest: string) returns (t: Transfer)
    requires stream.Valid() && stream.phase.NotStarted? && !stream.closedEarly
    requires stream.chunkSize.IntSize? && stream.chunkSize.n != 0
    requires client.sent == []
    modifies client, stream, stream.source
    ensures t == Deliver(CompressEach(Windows(stream.source.contents, stream.chunkSize.n)), 1, host, dest, client.answer, [])
    ensures client.sent == t.sent && client.login == old(client.login)
    ensures stream.source.Valid() && (stream.source.wasOpened ==> stream.source.closed)
  {
    var index := 1;
    while true
      invariant stream.Valid()
      invariant !stream.closedEarly && !stream.phase.Finished?
      invariant client.login == old(client.login)
      invariant Deliver(CompressEach(stream.Pending()), index, host, dest, client.answer, client.sent) ==
        Deliver(CompressEach(Windows(stream.source.contents, stream.chunkSize.n)), 1, host, dest, client.answer, [])
      decreases stream.Budget()
    {
      ghost var pending := stream.Pending();
      var step := stream.Next();
      if step.Exhausted? {
        return Transfer(client.sent, Delivered);
      }
      var chunk := step.chunk;
      DeliverStep(pending, index, host, dest, client.answer, client.sent);
      var cause := SendChunk(client, host, dest, chunk, index);
      if cause.Some? {
        stream.Close();
        return Transfer(client.sent, Stopped(index, cause.value));
      }
      index := index + 1;
    }
  }

  /** Lines 158-200 once logged in: the source is streamed in chunks and the
      run concluded from how the transfer ended. */
  method SendFile(client: Client, path: string, content: seq<byte>, size: ChunkSize, host: string, dest: string,
                  out: seq<string>, login: Credentials)
    returns (run: CopyRun, file: Source)
    requires client.sent == [] && client.login == Some(login) && size != IntSize(0)
    modifies client
    ensures size.IntSize? ==>
      run == Conclude(out, login, Deliver(CompressEach(Windows(content, size.n)), 1, host, dest, client.answer, []), size.n)
    ensures !size.IntSize? ==> run == CopyRun(out, [], 1, Some(login), [])
    ensures fresh(file) && file.Valid() && (file.wasOpened ==> file.closed)
  {
    file := new Source(path, content);
    var stream := new ChunkStream(file, size);
    if !size.IntSize? {
      // the generator raises ValueError on its first step, before any read
      var step := stream.Next();
      run := CopyRun(out, [], 1, client.login, client.sent);
      return;
    }
    var t := SendChunks(client, stream, host, dest);
    run := Conclude(out, login, t, size.n);
  }

  /** Lines 150-200 with a fresh client: log in, and stream the source when
      the login succeeds. */
  method Session(client: Client, out: seq<string>, login: Credentials, path: string, content: seq<byte>,
                 size: ChunkSize, host: string, dest: string)
    returns (run: CopyRun, file: Option<Source>)
    requires client.sent == [] && client.login.None? && size != IntSize(0)
    modifies client
    ensures run == SessionRun(out, login, client.loginError, content, size, host, dest, client.answer)
    ensures file.Some? ==>
      fresh(file.value) && file.value.Valid() && (file.value.wasOpened ==> file.value.closed)
  {
    file := None;
    var error := client.Login(login);
    if error.Some? {
      run := CopyRun(out + [error.value], [], 1, client.login, client.sent);
      return;
    }
    var source;
    run, source := SendFile(client, path, content, size, host, dest, out, login);
    file := Some(source);
  }

  /** `main` from line 117 on. The source file is read from `disk`, the
      readable regular files by normalised path; `normpath` stands for
      `os.path.normpath`; the API answers the login with `loginError` and each
      `low` call with `answer`. The opened source, if any, is returned so that
      its closing can be stated. */
  method CopyFile(data: map<string, Setting>, normpath: string -> string, disk: map<string, seq<byte>>,
                  loginError: Option<string>, answer: seq<LowState> -> Response)
    returns (run: CopyRun, file: Option<Source>)
    requires CopierData(data) && data["chunk-size"] != Number(0)
    ensures run == CopySpec(data, normpath, disk, loginError, answer)
    ensures file.Some? ==>
      fresh(file.value) && file.value.Valid() && (file.value.wasOpened ==> file.value.closed)
  {
    file := None;
    var out := [if data["dest"].Text? then data["dest"].s else ""];
    var missing := FirstMissing(data, RequiredKeys);
    if missing.Some? {
      var msg := MissingMessage(missing.value);
      run := CopyRun(out, [msg, msg], 1, None, []);
      return;
    }
    RequiredAreText(data);
    var src := normpath(data["src"].s);
    if src !in disk {
      run := CopyRun(out, [UnreadableMessage(data["src"].s)], 1, None, []);
      return;
    }
    var client := new Client(SettingValue(data["url"]), !Common.Truthy(data["verify_ssl"]), loginError, answer);
    run, file := Session(client, out, LoginOf(data), src, disk[src], ChunkSizeOf(data["chunk-size"]),
      data["host"].s, normpath(data["dest"].s));
  }
}
