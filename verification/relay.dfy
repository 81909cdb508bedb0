// `_transfer`: the bounded two-way relay between a local client and a command's standard
// streams, for every schedule of readiness, partial reads and partial writes.

module Relays {
  newtype byte = b: int | 0 <= b < 256

  const BUFFER_LIMIT: nat := 65536
  const READ_LIMIT: nat := 32768

  /** One direction: what the source still has, what is buffered, and what has reached the other side. */
  datatype Way = Way(rest: seq<byte>, buffer: seq<byte>, sent: seq<byte>, eof: bool)

  /** Every byte is somewhere, in order; the buffer is bounded; and the end was only seen at the end. */
  ghost predicate WayOk(w: Way, input: seq<byte>) {
    w.sent + w.buffer + w.rest == input && |w.buffer| <= BUFFER_LIMIT && (w.eof ==> w.rest == [])
  }

  /** What can still happen to a direction: every byte is read once and written once, and the end is read once. */
  function Work(w: Way): nat {
    2 * |w.rest| + |w.buffer| + if w.eof then 0 else 1
  }

  /** The source is in the read set. */
  predicate Reads(w: Way) {
    !w.eof && |w.buffer| < BUFFER_LIMIT
  }

  /** `recv` and `read` on a ready source: some of what is there, within the bound, and nothing only at the end. */
  method Receive(w: Way, ghost input: seq<byte>) returns (v: Way)
    requires WayOk(w, input) && Reads(w)
    ensures WayOk(v, input) && v.sent == w.sent && Work(v) < Work(w)
    ensures w.buffer <= v.buffer && |v.buffer| - |w.buffer| <= 32768
    ensures v.eof <==> v.buffer == w.buffer
    ensures if w.rest == [] then v == w.(eof := true) else |v.rest| < |w.rest| && !v.eof
  {
    var room := if BUFFER_LIMIT - |w.buffer| < READ_LIMIT then BUFFER_LIMIT - |w.buffer| else READ_LIMIT;
    if w.rest == [] {
      return w.(eof := true);
    }
    var n: nat :| 1 <= n <= room && n <= |w.rest|;
    assert w.rest == w.rest[..n] + w.rest[n..];
    v := w.(buffer := w.buffer + w.rest[..n], rest := w.rest[n..]);
  }

  /** `write` and `send` of a non-empty buffer to a ready sink: a first part of it, at least one byte. */
  method Deliver(w: Way, ghost input: seq<byte>) returns (v: Way)
    requires WayOk(w, input) && w.buffer != []
    ensures WayOk(v, input) && v.rest == w.rest && v.eof == w.eof && Work(v) < Work(w)
    ensures w.sent < v.sent && v.sent + v.buffer == w.sent + w.buffer
  {
    var n: nat :| 1 <= n <= |w.buffer|;
    assert w.buffer == w.buffer[..n] + w.buffer[n..];
    v := w.(sent := w.sent + w.buffer[..n], buffer := w.buffer[n..]);
  }

  /** Which descriptors `select` reports; it only ever reports those that were asked for. */
  datatype Ready = Ready(clientIn: bool, podOut: bool, podIn: bool, clientOut: bool)

  /** What a round does to one way: it takes in something, or the end, exactly if its source is ready, and passes
      something on exactly if its sink is. */
  ghost predicate Moved(before: Way, after: Way, taken: bool, passed: bool) {
    && (if taken then |after.rest| < |before.rest| || (after.eof && !before.eof && before.rest == [])
        else after.rest == before.rest && after.eof == before.eof)
    && (if passed then |after.sent| > |before.sent| else after.sent == before.sent)
  }

  class Relay {
    var up: Way
    var down: Way
    var inputClosed: bool
    ghost const clientInput: seq<byte>
    ghost const podOutput: seq<byte>
    /** How many rounds had a ready descriptor: each of them moves the idle deadline. */
    ghost var busyRounds: nat
    ghost var rounds: nat

    /** Standard input is closed only behind the client's last byte. */
    ghost predicate Valid()
      reads this
    {
      WayOk(up, clientInput) && WayOk(down, podOutput) && (inputClosed ==> up.eof && up.buffer == [])
    }

    constructor (clientInput: seq<byte>, podOutput: seq<byte>)
      ensures Valid() && this.clientInput == clientInput && this.podOutput == podOutput && busyRounds == rounds == 0
      ensures up == Way(clientInput, [], [], false) && down == Way(podOutput, [], [], false) && !inputClosed
    {
      this.clientInput, this.podOutput := clientInput, podOutput;
      up, down, inputClosed := Way(clientInput, [], [], false), Way(podOutput, [], [], false), false;
      busyRounds, rounds := 0, 0;
    }

    /** The sets given to `select`. */
    function Asked(): Ready
      reads this
    {
      Ready(Reads(up), Reads(down), up.buffer != [] && !inputClosed, down.buffer != [])
    }

    /** One round of the loop. `finished`: the pod has ended and everything it sent was delivered. */
    method Round(ready: Ready) returns (finished: bool)
      requires Valid()
      requires (ready.clientIn ==> Asked().clientIn) && (ready.podOut ==> Asked().podOut)
      requires (ready.podIn ==> Asked().podIn) && (ready.clientOut ==> Asked().clientOut)
      modifies this
      ensures Valid() && old(up.sent) <= up.sent && old(down.sent) <= down.sent
      ensures finished <==> down.eof && down.buffer == []
      ensures old(inputClosed) ==> inputClosed && up == old(up)
      ensures inputClosed <==> up.eof && up.buffer == []
      ensures Work(up) + Work(down) + busyRounds <= old(Work(up) + Work(down) + busyRounds)
      ensures rounds == old(rounds) + 1
      ensures busyRounds == old(busyRounds) + if ready == Ready(false, false, false, false) then 0 else 1
      ensures Moved(old(up), up, ready.clientIn, ready.podIn) && Moved(old(down), down, ready.podOut, ready.clientOut)
    {
      hide WayOk, Work;
      rounds := rounds + 1;
      if ready != Ready(false, false, false, false) {
        busyRounds := busyRounds + 1;
      }
      if ready.clientIn {
        up := Receive(up, clientInput);
      }
      if ready.podOut {
        down := Receive(down, podOutput);
      }
      if ready.podIn {
        up := Deliver(up, clientInput);
      }
      if ready.clientOut {
        down := Deliver(down, podOutput);
      }
      if up.eof && up.buffer == [] && !inputClosed {
        inputClosed := true;
      }
      finished := down.eof && down.buffer == [];
    }

    /** Until the pod's end has been delivered there is always something to wait for. */
    lemma NeverStuck()
      requires Valid() && !(down.eof && down.buffer == [])
      ensures Asked().podOut || Asked().clientOut
    {
    }

    /** The relay, for any schedule of `length` rounds; a shorter run is a deadline or a stop. */
    method Transfer(length: nat) returns (finished: bool, ghost stopped: bool)
      requires Valid() && up == Way(clientInput, [], [], false) && down == Way(podOutput, [], [], false)
               && busyRounds == 0 && rounds == 0
      modifies this
      ensures Valid() && up.sent <= clientInput && down.sent <= podOutput
      ensures |up.buffer| <= 65536 && |down.buffer| <= 65536
      ensures inputClosed ==> up.sent == clientInput
      ensures finished ==> down.sent == podOutput
      ensures finished || stopped || rounds == length
      ensures busyRounds <= 2 * |clientInput| + 2 * |podOutput| + 2
    {
      finished, stopped := false, false;
      var round := 0;
      while round < length && !finished
        invariant Valid() && (finished ==> down.eof && down.buffer == []) && rounds == round <= length
        invariant Work(up) + Work(down) + busyRounds <= 2 * |clientInput| + 2 * |podOutput| + 2
      {
        var stop: bool := *;
        if stop {
          stopped := true;
          break;
        }
        var asked := Asked();
        var a: bool, b: bool, c: bool, d: bool := *, *, *, *;
        finished := Round(Ready(a && asked.clientIn, b && asked.podOut, c && asked.podIn, d && asked.clientOut));
        round := round + 1;
      }
    }
  }
}
