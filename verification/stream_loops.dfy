/**
 The loops that move bytes between a buffer of the application and a stream that may take or give
 less than it is asked for. The stream's answers are a list, one for each call; a loop that has used
 up the list is still running and waits for its next answer.
 */
module StreamLoops {
  import opened BlockHeap

  newtype byte = x: int | 0 <= x < 256

  const INT32_MAX := 0x7fff_ffff
  const UINT32_MAX := 0xffff_ffff

  type Int32 = x: int | -INT32_MAX - 1 <= x <= INT32_MAX
  type Uint32 = x: int | 0 <= x <= UINT32_MAX

  datatype Status = NapiOk | NapiGenericFailure

  /** A stream never moves more than it is asked to; a negative answer moves nothing. */
  function Limit(answer: int, asked: nat): (n: int)
    ensures n <= asked
    ensures answer < 0 <==> n < 0
  {
    if answer > asked then asked else answer
  }

  /** How much the answers move of a buffer, if none is negative. */
  function Moved(answers: seq<int>, size: nat): (n: nat)
    ensures n <= size
  {
    if answers == [] then 0
    else
      var before := Moved(answers[..|answers| - 1], size);
      before + if answers[|answers| - 1] < 0 then 0 else Limit(answers[|answers| - 1], size - before)
  }

  predicate Negative(answer: int) {
    answer < 0
  }

  /** Answers that are never 0 move at least one byte each until all are moved. */
  lemma {:induction false} NonzeroAnswersProgress(answers: seq<int>, size: nat)
    requires forall i | 0 <= i < |answers| :: answers[i] > 0
    ensures Moved(answers, size) >= if |answers| <= size then |answers| else size
  {
    if answers != [] {
      NonzeroAnswersProgress(answers[..|answers| - 1], size);
    }
  }

  lemma NeverStalls(answers: seq<int>, size: nat)
    requires |answers| >= size && 0 !in answers
    requires forall i | 0 <= i < |answers| :: !Negative(answers[i])
    ensures Moved(answers[..|answers|], size) == size
  {
    assert answers[..|answers|] == answers;
    assert forall i | 0 <= i < |answers| :: answers[i] in answers && !Negative(answers[i]);
    NonzeroAnswersProgress(answers, size);
  }

  lemma NothingMoved(answers: seq<int>, size: nat)
    ensures Moved(answers[..0], size) == 0
  {
  }

  lemma MovedNext(answers: seq<int>, used: nat, size: nat)
    requires used < |answers|
    ensures var before := Moved(answers[..used], size);
            Moved(answers[..used + 1], size) ==
            before + if Negative(answers[used]) then 0 else Limit(answers[used], size - before)
  {
    assert answers[..used + 1][..used] == answers[..used];
  }

  class AudioRenderer {
    var answers: seq<Int32>
    ghost var sink: seq<byte>

    constructor (answers: seq<Int32>)
      ensures this.answers == answers && sink == []
    {
      this.answers, sink := answers, [];
    }

    method Write(data: seq<byte>) returns (n: Int32)
      requires answers != []
      modifies this
      ensures n == Limit(old(answers)[0], |data|)
      ensures answers == old(answers)[1..]
      ensures sink == old(sink) + if n < 0 then [] else data[..n]
    {
      n := if answers[0] > |data| then |data| else answers[0];
      answers := answers[1..];
      if n >= 0 {
        sink := sink + data[..n];
      }
    }
  }

  lemma PartsJoin(sink: seq<byte>, data: seq<byte>, total: nat, n: nat)
    requires total + n <= |data|
    ensures sink + data[..total] + data[total..][..n] == sink + data[..total + n]
  {
    assert data[..total] + data[total..][..n] == data[..total + n];
  }

  const MIN_BYTES := 4

  /**
   WriteArrayBufferToNative on a copy of the data, which may fail. When it has ended with success, the
   sink has gained the first total bytes in order, and the loop stopped at a negative answer or with at
   most four bytes left.
   */
  method WriteArrayBufferToNative(renderer: AudioRenderer, data: seq<byte>, copied: bool)
    returns (status: Status, total: nat, ended: bool, ghost used: nat)
    modifies renderer
    ensures status == NapiOk <==> copied && ended
    ensures used <= |old(renderer.answers)| && renderer.answers == old(renderer.answers)[used..]
    ensures total == Moved(old(renderer.answers)[..used], |data|)
    ensures renderer.sink == old(renderer.sink) + data[..total]
    ensures forall i | 0 <= i < used - 1 :: !Negative(old(renderer.answers)[i])
    ensures copied ==>
              (ended <==> |data| - total <= MIN_BYTES || (used > 0 && Negative(old(renderer.answers)[used - 1])))
    ensures !copied ==> ended && used == 0
    ensures !ended ==> renderer.answers == []
    ensures |old(renderer.answers)| >= |data| && 0 !in old(renderer.answers) ==> ended
  {
    hide Moved, Limit;
    var bufferLen := |data|;
    ghost var script := renderer.answers;
    NothingMoved(script, bufferLen);
    total := 0;
    if !copied {
      return NapiGenericFailure, 0, true, 0;
    }
    var buffer := data;
    used := 0;
    var bytesWritten: Int32 := 0;
    while total < bufferLen && bufferLen - total > MIN_BYTES && renderer.answers != []
      invariant used <= |script| && renderer.answers == script[used..]
      invariant total == Moved(script[..used], bufferLen)
      invariant renderer.sink == old(renderer.sink) + data[..total]
      invariant forall i | 0 <= i < used :: !Negative(script[i])
      invariant bytesWritten >= 0
      decreases |renderer.answers|
    {
      bytesWritten := renderer.Write(buffer[total..]);
      MovedNext(script, used, bufferLen);
      used := used + 1;
      if bytesWritten < 0 {
        break;
      }
      PartsJoin(old(renderer.sink), data, total, bytesWritten);
      total := total + bytesWritten;
    }
    ended := bytesWritten < 0 || bufferLen - total <= MIN_BYTES;
    status := if ended then NapiOk else NapiGenericFailure;
    if !ended && |script| >= bufferLen && 0 !in script {
      NeverStalls(script, bufferLen);
    }
  }

  class AudioCapturer {
    var answers: seq<Int32>
    /** The recorded bytes, and how many of them have been read. */
    const source: nat -> byte
    var position: nat

    constructor (answers: seq<Int32>, source: nat -> byte)
      ensures this.answers == answers && this.source == source && position == 0
    {
      this.answers, this.source, position := answers, source, 0;
    }

    method Read(buffer: array<byte>, offset: nat, asked: nat) returns (n: Int32)
      requires answers != [] && offset + asked <= buffer.Length
      modifies this, buffer
      ensures n == Limit(old(answers)[0], asked)
      ensures answers == old(answers)[1..]
      ensures position == old(position) + if n < 0 then 0 else n
      ensures forall i | 0 <= i < buffer.Length ::
                buffer[i] == if offset <= i < offset + n then source(old(position) + (i - offset)) else old(buffer[i])
    {
      n := if answers[0] > asked then asked else answers[0];
      answers := answers[1..];
      if n >= 0 {
        forall i | offset <= i < offset + n {
          buffer[i] := source(position + (i - offset));
        }
        position := position + n;
      }
    }
  }

  /**
   ReadFromNative for every size. When it has ended, either the buffer is returned full of the next
   userSize bytes in order, or nothing stays allocated. The counter of the code is an int32; the model
   stops where adding to it would overflow, which is undefined there.
   */
  method ReadFromNative(heap: Heap, capturer: AudioCapturer, userSize: Uint32)
    returns (status: Status, buffer: array?<byte>, bytesRead: Int32, ended: bool, overflowed: bool, ghost used: nat)
    modifies heap`asked, heap`live, capturer
    ensures !old(heap.grants(heap.asked)) ==> ended && status == NapiGenericFailure && heap.live == old(heap.live)
    ensures used <= |old(capturer.answers)| && capturer.answers == old(capturer.answers)[used..]
    ensures overflowed <==>
              old(heap.grants(heap.asked)) && Moved(old(capturer.answers)[..used], userSize) > INT32_MAX
    ensures !(ended && overflowed)
    ensures ended ==>
              (status == NapiOk <==>
                 old(heap.grants(heap.asked)) && userSize > 0 &&
                 forall i | 0 <= i < used :: !Negative(old(capturer.answers)[i]))
    ensures status == NapiOk ==>
              && ended && userSize <= INT32_MAX
              && buffer != null && fresh(buffer) && heap.live == old(heap.live) + {buffer}
              && bytesRead == buffer.Length == userSize
              && capturer.position == old(capturer.position) + userSize
              && (forall i | 0 <= i < userSize :: buffer[i] == capturer.source(old(capturer.position) + i))
    ensures ended && status != NapiOk ==> buffer == null && heap.live == old(heap.live)
    ensures !ended && !overflowed ==> capturer.answers == []
    ensures |old(capturer.answers)| >= userSize && 0 !in old(capturer.answers) ==> ended || overflowed
  {
    hide Moved, Limit;
    status, buffer, bytesRead, ended, overflowed, used := NapiGenericFailure, null, 0, true, false, 0;
    var granted := heap.Ask();
    if !granted {
      return;
    }
    var block := new byte[userSize](_ => 0);
    heap.Allocated(block);
    ghost var script := capturer.answers;
    NothingMoved(script, userSize);
    while bytesRead < userSize && capturer.answers != []
      invariant used <= |script| && capturer.answers == script[used..]
      invariant heap.live == old(heap.live) + {block}
      invariant 0 <= bytesRead == Moved(script[..used], userSize)
      invariant capturer.position == old(capturer.position) + bytesRead
      invariant forall i | 0 <= i < bytesRead :: block[i] == capturer.source(old(capturer.position) + i)
      invariant forall i | 0 <= i < used :: !Negative(script[i])
      decreases |capturer.answers|
    {
      var len := capturer.Read(block, bytesRead, userSize - bytesRead);
      MovedNext(script, used, userSize);
      used := used + 1;
      if len >= 0 {
        if len > INT32_MAX - bytesRead {
          return NapiGenericFailure, block, bytesRead, false, true, used;
        }
        bytesRead := bytesRead + len;
      } else {
        bytesRead := len;
        break;
      }
    }
    if 0 <= bytesRead < userSize {
      if |script| >= userSize && 0 !in script {
        NeverStalls(script, userSize);
      }
      return NapiGenericFailure, block, bytesRead, false, false, used;
    }
    if bytesRead <= 0 {
      heap.Free(block);
      assert bytesRead < 0 ==> Negative(script[used - 1]);
      return;
    }
    return NapiOk, block, bytesRead, true, false, used;
  }
}
