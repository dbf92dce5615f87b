/**
  evp_agent_dlog_handler of log.c: a message goes through a bounded buffer and out in
  chunks, with a notice when the buffer was too small.
*/
module DlogChunks {
  import opened Common
  import opened CStrings
  import Decimal

  const LOG_BUFFER_SIZE := 4096
  const LOG_CHUNK_SIZE := 256
  const INT_MAX := 0x7FFF_FFFF

  /** What is handed to UtilityLogWriteDLog, with the "[file:line] " prefix kept apart. */
  datatype Write =
    | Chunk(prefix: string, payload: string)
    | Truncated(prefix: string, messageSize: int, bufferSize: int, truncated: int)

  /** EVP_FILE_NAME: what follows the last slash. */
  function FileName(file: string): (name: string)
    ensures '/' !in name && |name| <= |file| && file[|file| - |name|..] == name
    ensures name == file || file[|file| - |name| - 1] == '/'
  {
    if file == "" || Last(file) == '/' then "" else FileName(Front(file)) + [Last(file)]
  }

  function Prefix(file: string, line: int): string {
    "[" + FileName(file) + ":" + Decimal.Print(line) + "] "
  }

  /** What a reader may take from "[name:text] ". */
  ghost predicate Names(file: string, line: int, name: string, text: string) {
    && '/' !in name && (name == file || exists directory :: file == directory + "/" + name)
    && ':' !in text && Decimal.Read(text) == Some(line)
  }

  /** The prefix names the file without its directories, and the line in decimal. */
  lemma PrefixReadsBack(file: string, line: int) returns (name: string, text: string)
    ensures Prefix(file, line) == "[" + name + ":" + text + "] " && Names(file, line, name, text)
  {
    name, text := FileName(file), Decimal.Print(line);
    Decimal.PrintRead(line);
    if name != file {
      var k := |file| - |name| - 1;
      assert file == file[..k] + "/" + name;
    }
  }

  lemma AfterColon(n: string, t: string)
    requires ':' !in t
    ensures var s := n + ":" + t;
            && s[|n|] == ':' && (forall k :: |n| < k < |s| ==> s[k] != ':')
            && s[..|n|] == n && s[|n| + 1..] == t
  {
    var s := n + ":" + t;
    forall k | |n| < k < |s|
      ensures s[k] != ':'
    {
      assert s[k] == t[k - |n| - 1];
    }
  }

  /** There is one way to read it: what stands before the last colon, and what stands after it. */
  lemma LastColon(s: string, n1: string, t1: string, n2: string, t2: string)
    requires ':' !in t1 && ':' !in t2 && s == n1 + ":" + t1 == n2 + ":" + t2
    ensures n1 == n2 && t1 == t2
  {
    AfterColon(n1, t1);
    AfterColon(n2, t2);
    assert |n1| == |n2|;
  }

  lemma Inside(n: string, t: string)
    ensures var p := "[" + n + ":" + t + "] "; p[1..|p| - 2] == n + ":" + t
  {
  }

  /** So equal prefixes stand for the same line of files of the same name. */
  lemma PrefixIsUnambiguous(file: string, line: int, file': string, line': int)
    requires Prefix(file, line) == Prefix(file', line')
    ensures FileName(file) == FileName(file') && line == line'
  {
    SameInside(FileName(file), Decimal.Print(line), FileName(file'), Decimal.Print(line'), line, line');
  }

  lemma SameInside(n: string, t: string, n': string, t': string, line: int, line': int)
    requires t == Decimal.Print(line) && t' == Decimal.Print(line')
    requires "[" + n + ":" + t + "] " == "[" + n' + ":" + t' + "] "
    ensures n == n' && line == line'
  {
    Decimal.PrintRead(line);
    Decimal.PrintRead(line');
    Inside(n, t);
    Inside(n', t');
    LastColon(n + ":" + t, n, t, n', t');
  }

  /** `name` is what follows the last slash of `file`. */
  ghost predicate FollowsLastSlash(file: string, name: string) {
    && '/' !in name && |name| <= |file| && file[|file| - |name|..] == name
    && (name == file || file[|file| - |name| - 1] == '/')
  }

  lemma NotShorter(file: string, name: string, other: string)
    requires FollowsLastSlash(file, name) && FollowsLastSlash(file, other)
    ensures |name| <= |other|
  {
    var start := |file| - |name|;
    assert forall k :: start <= k < |file| ==> file[k] == name[k - start] != '/';
  }

  /** Directories do not show. */
  lemma FileNameIs(directory: string, name: string)
    requires '/' !in name
    ensures FileName(directory + "/" + name) == name
  {
    var file := directory + "/" + name;
    assert file[|directory|] == '/' && file[|directory| + 1..] == name;
    NotShorter(file, name, FileName(file));
    NotShorter(file, FileName(file), name);
  }

  lemma PrefixExample()
    ensures Prefix("src/log.c", 7) == "[log.c:7] "
  {
    assert "src/log.c" == "src" + "/" + "log.c";
    FileNameIs("src", "log.c");
    assert Decimal.Print(7) == "7";
  }

  // ---------------------------------------------------------------------------------------
  // What chunking should give
  // ---------------------------------------------------------------------------------------

  function Concat(chunks: seq<string>): string {
    if chunks == [] then "" else Concat(Front(chunks)) + Last(chunks)
  }

  /** The chunks make up the text, none is empty, and all but the last are full. */
  ghost predicate Chunked(text: string, chunks: seq<string>) {
    && Concat(chunks) == text
    && (forall k :: 0 <= k < |chunks| ==> 1 <= |chunks[k]| <= LOG_CHUNK_SIZE)
    && (forall k :: 0 <= k < |chunks| - 1 ==> |chunks[k]| == LOG_CHUNK_SIZE)
  }

  lemma {:induction false} FullChunks(chunks: seq<string>)
    requires forall k :: 0 <= k < |chunks| ==> |chunks[k]| == LOG_CHUNK_SIZE
    ensures |Concat(chunks)| == LOG_CHUNK_SIZE * |chunks|
  {
    if chunks != [] {
      FullChunks(Front(chunks));
    }
  }

  ghost predicate AllFull(chunks: seq<string>) {
    forall k :: 0 <= k < |chunks| ==> |chunks[k]| == LOG_CHUNK_SIZE
  }

  lemma AppendChunk(text: string, chunks: seq<string>, payload: string)
    requires Chunked(text, chunks) && AllFull(chunks) && 1 <= |payload| <= LOG_CHUNK_SIZE
    ensures Chunked(text + payload, chunks + [payload])
    ensures |payload| == LOG_CHUNK_SIZE ==> AllFull(chunks + [payload])
  {
    FrontOfSnoc(chunks, payload);
  }

  /** There is only one number of chunks, the least that can carry the text. */
  lemma ChunkCount(text: string, chunks: seq<string>)
    requires Chunked(text, chunks)
    ensures |chunks| == (|text| + LOG_CHUNK_SIZE - 1) / LOG_CHUNK_SIZE
  {
    if chunks != [] {
      FullChunks(Front(chunks));
    }
  }

  /** The text that survives: cut at the buffer, then at the first NUL if there is one. */
  function Kept(message: string): string {
    var s := message[..Min(|message|, LOG_BUFFER_SIZE - 1)];
    s[..NulAt(s)]
  }

  function Payloads(writes: seq<Write>): seq<string> {
    if writes == [] then []
    else Payloads(Front(writes)) + if Last(writes).Chunk? then [Last(writes).payload] else []
  }

  predicate TruncationNoticed(prefix: string, message: string) {
    |prefix| + |message| + 1 > LOG_BUFFER_SIZE
  }

  // ---------------------------------------------------------------------------------------
  // The handler
  // ---------------------------------------------------------------------------------------

  /** log.c:243-252: the buffer's text, chunk by chunk. */
  method WriteChunks(buf: array<char>, bufLen: nat, prefix: string) returns (writes: seq<Write>)
    requires bufLen <= buf.Length
    ensures Chunked(buf[..bufLen], Payloads(writes))
    ensures |Payloads(writes)| == |writes|
    ensures forall w :: w in writes ==> w.Chunk? && w.prefix == prefix
  {
    writes := [];
    var i := 0;
    ghost var chunks: seq<string> := [];
    while i < bufLen
      invariant i <= bufLen
      invariant chunks == Payloads(writes) && |chunks| == |writes|
      invariant Chunked(buf[..i], chunks) && (i < bufLen ==> AllFull(chunks))
      invariant forall w :: w in writes ==> w.Chunk? && w.prefix == prefix
      decreases bufLen - i
    {
      var remaining := bufLen - i;
      var chunkLen := if remaining > LOG_CHUNK_SIZE then LOG_CHUNK_SIZE else remaining;
      var payload := buf[i..i + chunkLen];
      FrontOfSnoc(writes, Chunk(prefix, payload));
      AppendChunk(buf[..i], chunks, payload);
      assert buf[..i + chunkLen] == buf[..i] + payload;
      writes := writes + [Chunk(prefix, payload)];
      chunks := chunks + [payload];
      i := i + chunkLen;
    }
  }

  /** What the log shows of a message: its kept text in chunks, and at most one notice at the end. */
  ghost predicate Shown(prefix: string, message: string, writes: seq<Write>) {
    var noticed := TruncationNoticed(prefix, message);
    && Chunked(Kept(message), Payloads(writes))
    && |Payloads(writes)| <= 16
    && (forall w :: w in writes ==> w.prefix == prefix)
    && |writes| == |Payloads(writes)| + (if noticed then 1 else 0)
    && (noticed ==>
          Last(writes) == Truncated(prefix, |prefix| + |message| + 1, LOG_BUFFER_SIZE,
                                    |prefix| + |message| + 1 - LOG_BUFFER_SIZE))
  }

  lemma KeptBound(message: string)
    ensures |Kept(message)| <= LOG_BUFFER_SIZE - 1
  {
  }

  method WriteBuffered(prefix: string, message: string, bufferSize: nat) returns (writes: seq<Write>)
    requires bufferSize == Min(|prefix| + |message| + 1, LOG_BUFFER_SIZE)
    ensures Chunked(Kept(message), Payloads(writes))
    ensures |writes| == |Payloads(writes)| <= 16
    ensures forall w :: w in writes ==> w.prefix == prefix
  {
    var buf := new char[bufferSize];
    Snprintf(buf, message);
    ghost var kept := Min(|message|, bufferSize - 1);
    assert kept == Min(|message|, LOG_BUFFER_SIZE - 1);
    var bufLen := Strlen(buf, kept);
    assert buf[..bufLen] == buf[..kept][..bufLen];
    writes := WriteChunks(buf, bufLen, prefix);
    KeptBound(message);
    ChunkCount(Kept(message), Payloads(writes));
  }

  /**
    `message` is None when formatting fails, `mallocOk` and `vsnprintfOk` say whether malloc and the
    second vsnprintf succeed.  In those cases nothing of the message is written.
  */
  method DlogHandler(file: string, line: int, message: Option<string>, mallocOk: bool, vsnprintfOk: bool)
    returns (writes: seq<Write>)
    requires message.Some? ==> |Prefix(file, line)| + |message.value| + 1 <= INT_MAX
    ensures if message.None? || !mallocOk || !vsnprintfOk then writes == []
            else Shown(Prefix(file, line), message.value, writes)
  {
    writes := [];
    if message.Some? {
      writes := WriteMessage(Prefix(file, line), message.value, mallocOk, vsnprintfOk);
    }
  }

  /** log.c:218-263 */
  method WriteMessage(prefix: string, message: string, mallocOk: bool, vsnprintfOk: bool) returns (writes: seq<Write>)
    requires |prefix| + |message| + 1 <= INT_MAX
    ensures if !mallocOk || !vsnprintfOk then writes == [] else Shown(prefix, message, writes)
  {
    var totalLen := |prefix| + |message| + 1;
    var bufferSize := totalLen;
    var logTruncated := false;
    if totalLen > LOG_BUFFER_SIZE {
      bufferSize := LOG_BUFFER_SIZE;
      logTruncated := true;
    }
    if !mallocOk || !vsnprintfOk {
      return [];
    }
    writes := WriteBuffered(prefix, message, bufferSize);
    if logTruncated {
      var notice := Truncated(prefix, totalLen, LOG_BUFFER_SIZE, totalLen - LOG_BUFFER_SIZE);
      NoticeAppended(prefix, writes, notice);
      writes := writes + [notice];
    }
  }

  lemma NoticeAppended(prefix: string, writes: seq<Write>, notice: Write)
    requires notice.Truncated? && notice.prefix == prefix && forall w :: w in writes ==> w.prefix == prefix
    ensures Payloads(writes + [notice]) == Payloads(writes)
    ensures forall w :: w in writes + [notice] ==> w.prefix == prefix
  {
    FrontOfSnoc(writes, notice);
  }

  /** The same in numbers, for a message without a NUL. */
  lemma ShownInNumbers(prefix: string, message: string, writes: seq<Write>)
    requires Shown(prefix, message, writes) && '\0' !in message
    ensures Concat(Payloads(writes)) == message[..Min(|message|, 4095)]
    ensures forall k :: 0 <= k < |Payloads(writes)| ==> 1 <= |Payloads(writes)[k]| <= 256
    ensures forall k :: 0 <= k < |Payloads(writes)| - 1 ==> |Payloads(writes)[k]| == 256
    ensures |Payloads(writes)| == (Min(|message|, 4095) + 255) / 256
    ensures var total := |prefix| + |message| + 1;
            if total > 4096
            then |writes| == |Payloads(writes)| + 1 && Last(writes) == Truncated(prefix, total, 4096, total - 4096)
            else |writes| == |Payloads(writes)|
  {
    ChunkCount(Kept(message), Payloads(writes));
  }

  // ---------------------------------------------------------------------------------------
  // What the notice is worth
  // ---------------------------------------------------------------------------------------

  /** Lost text is always noticed, and the count is the loss plus the prefix length. */
  lemma LossIsNoticed(prefix: string, message: string)
    requires '\0' !in message
    ensures Kept(message) != message ==> TruncationNoticed(prefix, message)
    ensures Kept(message) != message ==>
              |prefix| + |message| + 1 - LOG_BUFFER_SIZE == |message| - |Kept(message)| + |prefix|
  {
  }

  /**
    The converse fails: the size test counts the prefix, which is never stored.  A notice is
    spurious exactly for messages that fit the buffer but not together with the prefix.
  */
  lemma NoticeIsSpuriousExactly(prefix: string, message: string)
    requires '\0' !in message
    ensures TruncationNoticed(prefix, message) && Kept(message) == message
            <==> LOG_BUFFER_SIZE - 1 - |prefix| < |message| <= LOG_BUFFER_SIZE - 1
  {
  }

  lemma SpuriousNoticeExample()
    ensures var prefix, message := "[log.c:1] ", seq(4095, _ => 'x');
            TruncationNoticed(prefix, message) && Kept(message) == message
  {
  }
}
