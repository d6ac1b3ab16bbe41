/** The chunk reader hlua hands to lua_load: a callback that fills a 128-byte buffer from the
    host's reader and records the first I/O error, after which it only reports the end. */
module ChunkReader {
  import opened Base
  import opened Host

  /** The size of the callback's buffer. */
  const BUFFER_SIZE := 128

  /** The bytes still to come from a source, each step counting one more. */
  function Size(steps: seq<ReadStep>): nat
  {
    if steps == [] then 0
    else (if steps[0].Chunk? then |steps[0].data| else 0) + 1 + Size(steps[1..])
  }

  /** One call of the callback: the chunk it reports (empty: the end of the chunk), the
      steps left and the recorded error.  Once an error is recorded it reads nothing more;
      otherwise it reads at most a buffer's worth; an error reports the end and is recorded. */
  function Step(steps: seq<ReadStep>, err: Option<IoError>): (r: (Bytes, seq<ReadStep>, Option<IoError>))
    ensures |r.0| <= BUFFER_SIZE
    ensures err.Some? ==> r == ([], steps, err)
    ensures r.2.None? ==> err.None?
    ensures Size(r.1) + |r.0| <= Size(steps)
  {
    if err.Some? || steps == [] then ([], steps, err)
    else match steps[0]
      case Chunk(d) =>
        if |d| <= BUFFER_SIZE then (d, steps[1..], None)
        else
          assert ([Chunk(d[BUFFER_SIZE..])] + steps[1..])[1..] == steps[1..];
          (d[..BUFFER_SIZE], [Chunk(d[BUFFER_SIZE..])] + steps[1..], None)
      case Failure(e) => ([], steps[1..], Some(e))
  }

  /** What lua_load receives when it calls the callback until it reports the end: the bytes
      of the chunk and the error recorded, if any. */
  function ReadAll(steps: seq<ReadStep>, err: Option<IoError>): (r: (Bytes, Option<IoError>))
    ensures err.Some? ==> r == ([], err)
    decreases Size(steps)
  {
    var s := Step(steps, err);
    if s.0 == [] then ([], s.2)
    else
      var rest := ReadAll(s.1, s.2);
      (s.0 + rest.0, rest.1)
  }

  /** The state the callback works on (ReadData): the reader, as the steps it will still
      yield, and the error it recorded. */
  class ReadData {
    var steps: seq<ReadStep>
    var triggeredError: Option<IoError>

    constructor (source: seq<ReadStep>)
      ensures steps == source && triggeredError == None
    {
      steps := source;
      triggeredError := None;
    }

    /** The reader callback. */
    method Callback() returns (chunk: Bytes)
      modifies this
      ensures (chunk, steps, triggeredError) == Step(old(steps), old(triggeredError))
      ensures |chunk| <= BUFFER_SIZE
      ensures old(triggeredError).Some? ==> chunk == [] && unchanged(this)
    {
      if triggeredError.Some? {
        chunk := [];
        return;
      }
      if steps == [] {
        chunk := [];
        return;
      }
      match steps[0]
      case Chunk(d) =>
        if |d| <= BUFFER_SIZE {
          chunk := d;
          steps := steps[1..];
        } else {
          chunk := d[..BUFFER_SIZE];
          steps := [Chunk(d[BUFFER_SIZE..])] + steps[1..];
        }
      case Failure(e) =>
        chunk := [];
        steps := steps[1..];
        triggeredError := Some(e);
    }
  }

  /** lua_load's side of the exchange: it calls the callback until the callback reports
      the end, and compiles what it received. */
  method LoadChunk(data: ReadData) returns (code: Bytes)
    modifies data
    ensures (code, data.triggeredError) == ReadAll(old(data.steps), old(data.triggeredError))
  {
    code := [];
    ghost var ps, pe := data.steps, data.triggeredError;
    var chunk := data.Callback();
    assert [] + ReadAll(ps, pe).0 == ReadAll(ps, pe).0;
    while chunk != []
      invariant (chunk, data.steps, data.triggeredError) == Step(ps, pe)
      invariant ReadAll(old(data.steps), old(data.triggeredError)) == (code + ReadAll(ps, pe).0, ReadAll(ps, pe).1)
      decreases Size(data.steps) + |chunk|
    {
      ghost var rest := ReadAll(data.steps, data.triggeredError);
      assert ReadAll(ps, pe) == (chunk + rest.0, rest.1);
      assert code + (chunk + rest.0) == (code + chunk) + rest.0;
      code := code + chunk;
      ps, pe := data.steps, data.triggeredError;
      chunk := data.Callback();
    }
    assert code + [] == code;
  }

  /** The source of `load(&str)`: a cursor over the code. */
  function Cursor(code: Bytes): seq<ReadStep>
  {
    [Chunk(code)]
  }

  /** A cursor delivers the whole code, in chunks of at most 128 bytes, without error. */
  lemma {:induction false} CursorDeliversCode(code: Bytes)
    ensures ReadAll(Cursor(code), None) == (code, None)
    decreases |code|
  {
    assert Cursor(code)[0] == Chunk(code) && Cursor(code)[1..] == [];
    if |code| > BUFFER_SIZE {
      assert [Chunk(code[BUFFER_SIZE..])] + [] == Cursor(code[BUFFER_SIZE..]);
      assert Step(Cursor(code), None) == (code[..BUFFER_SIZE], Cursor(code[BUFFER_SIZE..]), None);
      CursorDeliversCode(code[BUFFER_SIZE..]);
      assert code[..BUFFER_SIZE] + code[BUFFER_SIZE..] == code;
    } else if code != [] {
      assert Step(Cursor(code), None) == (code, [], None);
      assert ReadAll([], None) == ([], None);
      assert code + [] == code;
    }
  }

  /** A reader whose first read fails makes the load report that error. */
  lemma FailingReaderReportsError(e: IoError, rest: seq<ReadStep>)
    ensures ReadAll([Failure(e)] + rest, None) == ([], Some(e))
  {
    assert Step([Failure(e)] + rest, None).0 == [];
  }

  /** The recorded error is sticky: a load that started after an error reads nothing and
      keeps that error. */
  lemma ErrorIsSticky(steps: seq<ReadStep>, e: IoError)
    ensures ReadAll(steps, Some(e)) == ([], Some(e))
  {
  }
}
