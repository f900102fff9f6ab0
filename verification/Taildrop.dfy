/** Reading files out of a stream of chunk messages, one file after another, with
    acknowledgements of what has been received. */
module Taildrop {
  import opened Wrappers

  newtype byte = b: int | 0 <= b < 256

  const ACK_INTERVAL: nat := 0x10_0000

  datatype ClientMessage = Chunk(data: seq<byte>) | FileDone | OtherMessage

  datatype Failure = EOF | RecvFailed | Unexpected | FileChanged

  // ----- what the stream says

  // The bytes of the chunks, whatever else comes between.
  function Payload(ms: seq<ClientMessage>): seq<byte> {
    if ms == [] then [] else Payload(ms[..|ms| - 1]) + (if ms[|ms| - 1].Chunk? then ms[|ms| - 1].data else [])
  }

  /** The next file in the stream, up to its end mark, and the stream after that. */
  function NextFile(ms: seq<ClientMessage>): Option<(seq<byte>, seq<ClientMessage>)> {
    if ms == [] then None
    else if ms[0].FileDone? then Some(([], ms[1..]))
    else
      match NextFile(ms[1..])
      case None => None
      case Some((bytes, rest)) => Some(((if ms[0].Chunk? then ms[0].data else []) + bytes, rest))
  }

  // Only empty chunks before the next end mark.
  predicate EndsQuietly(ms: seq<ClientMessage>) {
    ms != [] && match ms[0]
                case FileDone => true
                case Chunk(data) => data == [] && EndsQuietly(ms[1..])
                case OtherMessage => false
  }

  // What ends the wait for data or for the end mark: nothing is wrong at the mark, and data counts as a change of the file.
  function Awaited(ms: seq<ClientMessage>): (r: Option<Failure>)
    ensures r != Some(EOF)
  {
    if ms == [] then Some(RecvFailed)
    else match ms[0]
         case FileDone => None
         case Chunk(data) => if data == [] then Awaited(ms[1..]) else Some(FileChanged)
         case OtherMessage => Some(Unexpected)
  }

  lemma {:induction false} QuietIsAwaited(ms: seq<ClientMessage>)
    ensures EndsQuietly(ms) <==> Awaited(ms).None?
  {
    if ms != [] && ms[0].Chunk? {
      QuietIsAwaited(ms[1..]);
    }
  }

  predicate NoMark(ms: seq<ClientMessage>) {
    forall m | m in ms :: !m.FileDone?
  }

  lemma {:induction false} PayloadAppend(ms: seq<ClientMessage>, ms': seq<ClientMessage>)
    ensures Payload(ms + ms') == Payload(ms) + Payload(ms')
  {
    if ms' == [] {
      assert ms + ms' == ms;
    } else {
      PayloadAppend(ms, ms'[..|ms'| - 1]);
      assert (ms + ms')[..|ms + ms'| - 1] == ms + ms'[..|ms'| - 1];
    }
  }

  // What has been taken up to an end mark is a file.
  lemma {:induction false} TakenIsFile(taken: seq<ClientMessage>, rest: seq<ClientMessage>)
    requires NoMark(taken)
    ensures NextFile(taken + [FileDone] + rest) == Some((Payload(taken), rest))
  {
    var ms := taken + [FileDone] + rest;
    if taken == [] {
      assert ms[1..] == rest;
    } else {
      TakenIsFile(taken[1..], rest);
      assert ms[1..] == taken[1..] + [FileDone] + rest;
      assert taken == [taken[0]] + taken[1..];
      PayloadAppend([taken[0]], taken[1..]);
      assert Payload([taken[0]]) == if taken[0].Chunk? then taken[0].data else [];
    }
  }

  class ChunkReader {
    var incoming: seq<ClientMessage>  // still to be received; then receiving fails
    var buffer: seq<byte>
    var fileDone: bool
    var fileReceived: nat
    var received: nat
    var acknowledged: nat
    var reports: seq<nat>             // sent to the other side
    ghost var taken: seq<ClientMessage>  // received for the current file
    ghost var handed: seq<byte>          // given to the reader of the current file
    ghost var before: nat                // received for the files before

    ghost predicate Valid()
      reads this
    {
      && (if fileDone then taken != [] && taken[|taken| - 1].FileDone? && NoMark(taken[..|taken| - 1]) else NoMark(taken))
      && Payload(taken) == handed + buffer
      && fileReceived == |handed|
      && received == before + fileReceived
      && acknowledged <= received < acknowledged + ACK_INTERVAL
      && Reported(reports, acknowledged)
    }

    constructor (incoming: seq<ClientMessage>)
      ensures Valid() && this.incoming == incoming && buffer == [] && taken == [] && handed == [] && reports == []
    {
      this.incoming := incoming;
      buffer, fileDone, fileReceived, received, acknowledged, reports := [], false, 0, 0, 0, [];
      taken, handed, before := [], [], 0;
    }

    method BeginFile()
      requires Valid() && buffer == []
      modifies this`fileDone, this`fileReceived, this`taken, this`handed, this`before
      ensures Valid() && !fileDone && taken == [] && handed == []
    {
      fileDone, fileReceived := false, 0;
      taken, handed, before := [], [], received;
    }

    // One message, if there is one and it belongs here.
    method Receive() returns (failure: Option<Failure>)
      requires Valid() && buffer == [] && !fileDone
      modifies this`incoming, this`buffer, this`fileDone, this`taken
      ensures Valid() && old(taken + incoming) == taken + incoming
      ensures if old(incoming) == [] then failure == Some(RecvFailed) && incoming == [] && buffer == [] && !fileDone
              else match old(incoming)[0]
                   case Chunk(data) => failure.None? && buffer == data && !fileDone && incoming == old(incoming)[1..]
                   case FileDone => failure.None? && buffer == [] && fileDone && incoming == old(incoming)[1..]
                   case OtherMessage => failure == Some(Unexpected) && buffer == [] && !fileDone && incoming == old(incoming)[1..]
    {
      if incoming == [] {
        return Some(RecvFailed);
      }
      var message := incoming[0];
      assert taken + incoming == (taken + [message]) + incoming[1..];
      assert (taken + [message])[..|taken|] == taken;
      incoming := incoming[1..];
      taken := taken + [message];
      match message {
        case Chunk(data) => buffer := data; return None;
        case FileDone => fileDone := true; return None;
        case OtherMessage => return Some(Unexpected);
      }
    }

    // Receive until there is something to hand out, or the file has ended.
    method Fill() returns (failure: Option<Failure>)
      requires Valid()
      modifies this`incoming, this`buffer, this`fileDone, this`taken
      ensures Valid() && old(taken + incoming) == taken + incoming
      ensures failure.None? ==> buffer != []
      ensures failure == Some(EOF) ==> fileDone && buffer == []
      ensures failure == Some(EOF) <==> old(buffer) == [] && (old(fileDone) || EndsQuietly(old(incoming)))
      ensures failure.Some? ==> buffer == [] && failure != Some(FileChanged)
      ensures old(buffer) != [] ==> buffer == old(buffer) && incoming == old(incoming)
      ensures old(buffer) == [] && !old(fileDone) ==>
                match Awaited(old(incoming))
                case None => failure == Some(EOF)
                case Some(f) => if f == FileChanged then failure.None? else failure == Some(f)
    {
      QuietIsAwaited(incoming);
      while buffer == []
        invariant Valid() && old(taken + incoming) == taken + incoming
        invariant old(buffer) == [] && old(fileDone) ==> fileDone && buffer == []
        invariant old(buffer) != [] ==> buffer == old(buffer) && incoming == old(incoming)
        invariant old(buffer) == [] && !old(fileDone) ==>
                    Awaited(old(incoming)) == if buffer != [] then Some(FileChanged) else if fileDone then None else Awaited(incoming)
        decreases |incoming|, !fileDone
      {
        if fileDone {
          return Some(EOF);
        }
        failure := Receive();
        if failure.Some? {
          return;
        }
      }
      return None;
    }

    /** Hand out as much as fits. The bytes handed out continue the file, and what is
        not acknowledged stays below the interval. */
    method Read(destination: array<byte>) returns (n: nat, failure: Option<Failure>)
      requires Valid()
      modifies destination, this`incoming, this`buffer, this`fileDone, this`taken,
               this`fileReceived, this`received, this`acknowledged, this`reports, this`handed
      ensures Valid() && old(taken + incoming) == taken + incoming
      ensures n <= destination.Length && handed == old(handed) + destination[..n]
      ensures destination[n..] == old(destination[n..])
      ensures failure.Some? ==> n == 0 && buffer == []
      ensures failure == Some(EOF) ==> fileDone && handed == Payload(taken)
      ensures failure == Some(EOF) <==> old(buffer) == [] && (old(fileDone) || EndsQuietly(old(incoming)))
      ensures failure.None? ==> n == destination.Length || buffer == []
      ensures failure.None? && destination.Length > 0 ==> n > 0
      ensures failure != Some(FileChanged)
      ensures reports == old(reports) || (n > 0 && reports == old(reports) + [received])
    {
      failure := Fill();
      if failure.Some? {
        return 0, failure;
      }
      n := if destination.Length < |buffer| then destination.Length else |buffer|;
      for k := 0 to n
        modifies destination
        invariant destination[..k] == buffer[..k] && destination[n..] == old(destination[n..])
      {
        destination[k] := buffer[k];
      }
      Take(n);
    }

    method Take(n: nat)
      requires Valid() && n <= |buffer|
      modifies this`buffer, this`fileReceived, this`received, this`acknowledged, this`reports, this`handed
      ensures Valid() && buffer == old(buffer)[n..] && handed == old(handed) + old(buffer)[..n]
      ensures reports == old(reports) || (n > 0 && reports == old(reports) + [received])
    {
      handed := handed + buffer[..n];
      assert old(handed + buffer) == handed + buffer[n..];
      buffer := buffer[n..];
      fileReceived := fileReceived + n;
      received := received + n;
      if received - acknowledged >= ACK_INTERVAL {
        ReportedNext(reports, acknowledged, received);
        acknowledged := received;
        reports := reports + [received];
      }
    }

    /** The file is complete exactly if nothing is left of it and its size is as declared;
        then what was handed out is the file, all of it and nothing else. */
    method FinishFile(declared: int) returns (failure: Option<Failure>)
      requires Valid()
      modifies this`incoming, this`buffer, this`fileDone, this`taken
      ensures Valid() && old(taken + incoming) == taken + incoming
      ensures failure.None? <==>
                && old(buffer) == []
                && (old(fileDone) || EndsQuietly(old(incoming)))
                && (declared >= 0 ==> |handed| == declared)
      ensures failure.None? ==> buffer == [] && NextFile(taken + incoming) == Some((handed, incoming))
      ensures failure ==
                if old(buffer) != [] then Some(FileChanged)
                else if !old(fileDone) && Awaited(old(incoming)).Some? then Awaited(old(incoming))
                else if declared >= 0 && |handed| != declared then Some(FileChanged)
                else None
      ensures failure != Some(EOF)
    {
      QuietIsAwaited(incoming);
      while !fileDone
        invariant Valid() && old(taken + incoming) == taken + incoming
        invariant old(buffer) != [] ==> buffer != []
        invariant old(buffer) == [] && !old(fileDone) ==>
                    Awaited(old(incoming)) == if buffer != [] then Some(FileChanged) else if fileDone then None else Awaited(incoming)
        invariant old(buffer) == [] && old(fileDone) ==> fileDone && buffer == []
        decreases |incoming|, !fileDone
      {
        if |buffer| > 0 {
          return Some(FileChanged);
        }
        failure := Receive();
        if failure.Some? {
          return;
        }
      }
      if |buffer| > 0 {
        return Some(FileChanged);
      }
      if declared >= 0 && fileReceived != declared {
        return Some(FileChanged);
      }
      ghost var front := taken[..|taken| - 1];
      TakenIsFile(front, incoming);
      assert Payload(taken) == Payload(front) == handed;
      assert taken + incoming == front + [FileDone] + incoming;
      return None;
    }
  }

  // ----- sending several files

  // A file to send, and how its sender reads: into how large buffers, and whether it is content in the end.
  datatype File = File(declared: int, sizes: seq<nat>, sent: bool)

  datatype Error = Sending(index: nat) | Reading(failure: Failure)

  // The first n files of the stream, and what follows them.
  function Files(ms: seq<ClientMessage>, n: nat): Option<(seq<seq<byte>>, seq<ClientMessage>)> {
    if n == 0 then Some(([], ms))
    else
      match Files(ms, n - 1)
      case None => None
      case Some((files, rest)) =>
        match NextFile(rest)
        case None => None
        case Some((bytes, rest')) => Some((files + [bytes], rest'))
  }

  // The sender of a file reads as it likes, also on after a failure.
  method ReadAll(reader: ChunkReader, sizes: seq<nat>)
    requires reader.Valid()
    modifies reader
    ensures reader.Valid() && old(reader.taken + reader.incoming) == reader.taken + reader.incoming
    ensures old(reader.reports) <= reader.reports
  {
    for k := 0 to |sizes|
      invariant reader.Valid() && old(reader.taken + reader.incoming) == reader.taken + reader.incoming
      invariant old(reader.reports) <= reader.reports
    {
      var destination := new byte[sizes[k]];
      var n, failure := reader.Read(destination);
    }
  }

  /** However far it gets, what was handed out for each completed file is exactly that file
      in the stream, of the declared size if one was declared; completed tells the sizes.
      It stops at the first file whose sender or reader fails, and otherwise has taken
      exactly the files from the stream. */
  method SendFiles(reader: ChunkReader, files: seq<File>) returns (error: Option<Error>, ghost handed: seq<seq<byte>>, completed: seq<nat>)
    requires reader.Valid() && reader.buffer == []
    modifies reader
    ensures reader.Valid() && |handed| == |completed| <= |files|
    ensures Files(old(reader.incoming), |handed|).Some? && Files(old(reader.incoming), |handed|).value.0 == handed
    ensures forall k | 0 <= k < |handed| ::
              completed[k] == |handed[k]| && (files[k].declared >= 0 ==> |handed[k]| == files[k].declared)
    ensures error.None? ==> |handed| == |files| && Files(old(reader.incoming), |files|).value.1 == reader.incoming
    ensures error.Some? ==> |handed| < |files| && (error.value.Sending? <==> !files[|handed|].sent)
    ensures error.Some? && error.value.Sending? ==> error.value.index == |handed|
  {
    handed, completed := [], [];
    for i := 0 to |files|
      invariant reader.Valid() && reader.buffer == [] && |handed| == |completed| == i
      invariant Files(old(reader.incoming), i) == Some((handed, reader.incoming))
      invariant forall k | 0 <= k < i ::
                  completed[k] == |handed[k]| && (files[k].declared >= 0 ==> |handed[k]| == files[k].declared)
    {
      reader.BeginFile();
      ghost var rest := reader.incoming;
      assert [] + rest == rest;
      ReadAll(reader, files[i].sizes);
      if !files[i].sent {
        return Some(Sending(i)), handed, completed;
      }
      var failure := reader.FinishFile(files[i].declared);
      if failure.Some? {
        return Some(Reading(failure.value)), handed, completed;
      }
      handed, completed := handed + [reader.handed], completed + [reader.fileReceived];
    }
    error := None;
  }

  lemma ReportedNext(reports: seq<nat>, acknowledged: nat, received: nat)
    requires Reported(reports, acknowledged) && received >= acknowledged + ACK_INTERVAL
    ensures Reported(reports + [received], received)
  {
  }

  // Reports rise by at least the interval, up to what is acknowledged.
  predicate Reported(reports: seq<nat>, acknowledged: nat) {
    && (forall k | 0 < k < |reports| :: reports[k - 1] + ACK_INTERVAL <= reports[k])
    && (reports == [] ==> acknowledged == 0)
    && (reports != [] ==> reports[0] >= ACK_INTERVAL && reports[|reports| - 1] == acknowledged)
  }

  lemma {:induction false} ReportsRise(reports: seq<nat>, acknowledged: nat, i: nat, j: nat)
    requires Reported(reports, acknowledged) && i < j < |reports|
    ensures reports[i] < reports[j]
  {
    if i < j - 1 {
      ReportsRise(reports, acknowledged, i, j - 1);
    }
  }
}
