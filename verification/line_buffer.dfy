/** The wrapper around stdout and stderr that forwards complete lines as console messages. */
module LineBuffer {
  import opened Common

  const MAX_STREAM_BUFFER_LENGTH: nat := 1024 * 1024

  /** A console message; `terminated` if a newline of the input followed it. */
  datatype Message = Message(text: string, terminated: bool)

  /** The part of the input a message stands for. */
  function Source(m: Message): string { if m.terminated then m.text + "\n" else m.text }

  function Sources(ms: seq<Message>): string {
    if ms == [] then "" else Sources(ms[..|ms| - 1]) + Source(ms[|ms| - 1])
  }

  lemma SourcesSnoc(ms: seq<Message>, m: Message)
    ensures Sources(ms + [m]) == Sources(ms) + Source(m)
  {
    assert (ms + [m])[..|ms|] == ms;
  }

  lemma Associates(a: string, b: string, c: string)
    ensures (a + b) + c == a + (b + c)
  {}

  lemma Regroup(ms: seq<Message>, m: Message, rest: string, whole: string)
    requires Source(m) + rest == whole
    ensures Sources(ms + [m]) + rest == Sources(ms) + whole
  {
    SourcesSnoc(ms, m);
    Associates(Sources(ms), Source(m), rest);
  }

  /** `lastIndexOf('\n')` */
  function LastNewline(s: string): (i: int)
    ensures -1 <= i < |s|
    ensures i >= 0 ==> s[i] == '\n'
    ensures forall j :: i < j < |s| ==> s[j] != '\n'
  {
    if s == "" then -1 else if s[|s| - 1] == '\n' then |s| - 1 else LastNewline(s[..|s| - 1])
  }

  lemma CutAtNewline(s: string)
    requires LastNewline(s) != -1
    ensures var i := LastNewline(s);
      s[..i] + "\n" + s[i + 1..] == s && '\n' !in s[i + 1..]
  {}

  /** Where the buffer is cut: everything on overflow, else the last newline if there is one. */
  function Eol(whole: string): int {
    if |whole| > MAX_STREAM_BUFFER_LENGTH then |whole| else LastNewline(whole)
  }

  function Cut(whole: string): Message
    requires Eol(whole) != -1
  {
    Message(whole[..Eol(whole)], Eol(whole) < |whole|)
  }

  function Kept(whole: string): string
    requires Eol(whole) != -1
  {
    if Eol(whole) + 1 <= |whole| then whole[Eol(whole) + 1..] else ""
  }

  lemma CutConserves(whole: string)
    requires Eol(whole) != -1
    ensures Source(Cut(whole)) + Kept(whole) == whole
    ensures '\n' !in Kept(whole) && |Kept(whole)| <= MAX_STREAM_BUFFER_LENGTH
    ensures Cut(whole).terminated <==> |whole| <= MAX_STREAM_BUFFER_LENGTH
  {
    if |whole| > MAX_STREAM_BUFFER_LENGTH {
      assert whole[..|whole|] + "" == whole;
    } else {
      CutAtNewline(whole);
    }
  }

  lemma NewlineComesWithChunk(was: string, chunk: string)
    requires '\n' !in was
    ensures LastNewline(was + chunk) != -1 <==> '\n' in chunk
  {
    if '\n' in chunk {
      var i :| 0 <= i < |chunk| && chunk[i] == '\n';
      assert (was + chunk)[|was| + i] == '\n';
    }
  }

  /** What a write leaves in the buffer. */
  function BufferAfter(buf: string, chunk: string): string {
    if Eol(buf + chunk) == -1 then buf + chunk else Kept(buf + chunk)
  }

  /** The message that a write sends, if it does. */
  function SentBy(buf: string, chunk: string): seq<Message> {
    if Eol(buf + chunk) == -1 then [] else [Cut(buf + chunk)]
  }

  /** The input so far is what the messages stand for, followed by a buffer in order. */
  predicate Conserved(passed: string, sent: seq<Message>, buf: string) {
    passed == Sources(sent) + buf && '\n' !in buf && |buf| <= MAX_STREAM_BUFFER_LENGTH
  }

  lemma WriteConserves(passed: string, sent: seq<Message>, buf: string, chunk: string)
    requires Conserved(passed, sent, buf)
    ensures Conserved(passed + chunk, sent + SentBy(buf, chunk), BufferAfter(buf, chunk))
  {
    var whole := buf + chunk;
    Associates(Sources(sent), buf, chunk);
    if Eol(whole) == -1 {
      assert sent + SentBy(buf, chunk) == sent;
    } else {
      CutConserves(whole);
      Regroup(sent, Cut(whole), Kept(whole), whole);
    }
  }

  lemma WriteSends(buf: string, chunk: string)
    requires '\n' !in buf
    ensures SentBy(buf, chunk) != [] <==> '\n' in chunk || Overflows(buf, chunk)
    ensures SentBy(buf, chunk) != [] ==> (SentBy(buf, chunk)[0].terminated <==> !Overflows(buf, chunk))
    ensures Overflows(buf, chunk) ==> BufferAfter(buf, chunk) == ""
  {
    NewlineComesWithChunk(buf, chunk);
    if Eol(buf + chunk) != -1 { CutConserves(buf + chunk); }
  }

  /** The buffer would exceed one MiB of characters. */
  predicate Overflows(buf: string, chunk: string) { |buf| + |chunk| > 1_048_576 }

  function BufferAfterAll(buf: string, chunks: seq<string>): string {
    if chunks == [] then buf
    else BufferAfter(BufferAfterAll(buf, chunks[..|chunks| - 1]), chunks[|chunks| - 1])
  }

  /** Some write of the sequence overflows the buffer. */
  predicate SomeOverflows(buf: string, chunks: seq<string>) {
    chunks != [] &&
      var front := chunks[..|chunks| - 1];
      SomeOverflows(buf, front) || Overflows(BufferAfterAll(buf, front), chunks[|chunks| - 1])
  }

  predicate AllTerminated(ms: seq<Message>) {
    forall i :: 0 <= i < |ms| ==> ms[i].terminated
  }

  /** How the texts that went out, split at their newlines, cover the input. */
  function Joined(ms: seq<Message>): string {
    if ms == [] then "" else Joined(ms[..|ms| - 1]) + ms[|ms| - 1].text + "\n"
  }

  /**
   * As long as the buffer never overflows, writing the messages as lines gives back the input
   * up to its last newline, however the input was cut into chunks.
   */
  lemma {:induction false} MessagesAreTheLines(ms: seq<Message>, buf: string, input: string)
    requires AllTerminated(ms) && '\n' !in buf && input == Sources(ms) + buf
    ensures Joined(ms) == input[..LastNewline(input) + 1] && buf == input[LastNewline(input) + 1..]
  {
    JoinedIsSources(ms);
    if ms != [] {
      assert Sources(ms)[|Sources(ms)| - 1] == '\n';
    }
    var n := |Sources(ms)|;
    assert input[..n] == Sources(ms) && input[n..] == buf;
    assert n > 0 ==> input[n - 1] == '\n';
    assert forall j :: n <= j < |input| ==> input[j] == buf[j - n];
  }

  lemma {:induction false} JoinedIsSources(ms: seq<Message>)
    requires AllTerminated(ms)
    ensures Joined(ms) == Sources(ms)
    ensures ms != [] ==> Sources(ms) != "" && Sources(ms)[|Sources(ms)| - 1] == '\n'
  {
    if ms != [] { JoinedIsSources(ms[..|ms| - 1]); }
  }

  lemma OneMore(buf: string, chunks: seq<string>, i: nat)
    requires i < |chunks|
    ensures Flatten(chunks[..i + 1]) == Flatten(chunks[..i]) + chunks[i]
    ensures BufferAfterAll(buf, chunks[..i + 1]) == BufferAfter(BufferAfterAll(buf, chunks[..i]), chunks[i])
    ensures SomeOverflows(buf, chunks[..i + 1]) <==>
      SomeOverflows(buf, chunks[..i]) || Overflows(BufferAfterAll(buf, chunks[..i]), chunks[i])
  {
    assert chunks[..i + 1][..i] == chunks[..i] && chunks[..i + 1] == chunks[..i] + [chunks[i]];
    FlattenSnoc(chunks[..i], chunks[i]);
  }

  class Wrapper {
    var buf: string
    var sent: seq<Message>      // what was given to console
    var passed: string          // what was given to the original write

    constructor ()
      ensures buf == "" && sent == [] && passed == ""
    {
      buf, sent, passed := "", [], "";
    }

    /**
     * Everything written so far went to the original stream, and is what the messages stand
     * for followed by the buffer, which holds no newline and is not too long.
     */
    ghost predicate Conserves()
      reads this
    {
      Conserved(passed, sent, buf)
    }

    method Write(chunk: string)
      requires Conserves()
      modifies this
      ensures Conserves() && passed == old(passed) + chunk
      ensures sent == old(sent) + SentBy(old(buf), chunk) && buf == BufferAfter(old(buf), chunk)
      ensures SentBy(old(buf), chunk) != [] <==> '\n' in chunk || Overflows(old(buf), chunk)
      ensures AllTerminated(sent) <==> AllTerminated(old(sent)) && !Overflows(old(buf), chunk)
      ensures Overflows(old(buf), chunk) ==> buf == ""
    {
      WriteConserves(passed, sent, buf, chunk);
      WriteSends(buf, chunk);
      buf := buf + chunk;
      if Eol(buf) != -1 {
        sent := sent + [Cut(buf)];
        buf := Kept(buf);
      }
      passed := passed + chunk;
    }

    /**
     * Any sequence of writes. The messages are all whole lines exactly if no write overflows, and
     * then they are the lines of the input up to its last newline.
     */
    method WriteAll(chunks: seq<string>)
      requires Conserves()
      modifies this
      ensures Conserves() && passed == old(passed) + Flatten(chunks)
      ensures buf == BufferAfterAll(old(buf), chunks)
      ensures AllTerminated(sent) <==> AllTerminated(old(sent)) && !SomeOverflows(old(buf), chunks)
      ensures AllTerminated(sent) ==> Joined(sent) == passed[..LastNewline(passed) + 1]
    {
      var i := 0;
      assert chunks[..0] == [];
      while i < |chunks|
        invariant 0 <= i <= |chunks| && Conserves()
        invariant passed == old(passed) + Flatten(chunks[..i])
        invariant buf == BufferAfterAll(old(buf), chunks[..i])
        invariant AllTerminated(sent) <==> AllTerminated(old(sent)) && !SomeOverflows(old(buf), chunks[..i])
      {
        OneMore(old(buf), chunks, i);
        Associates(old(passed), Flatten(chunks[..i]), chunks[i]);
        Write(chunks[i]);
        i := i + 1;
      }
      assert chunks[..i] == chunks;
      if AllTerminated(sent) { MessagesAreTheLines(sent, buf, passed); }
    }
  }
}
