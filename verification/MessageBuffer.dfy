/** The message buffer of the connection manager: numbered messages, replayed after a reconnection. */
module MessageBuffer {

  datatype Entry = Entry(sequence: int, message: string)

  datatype Sent = Sent(user: string, message: string)

  function Last(sequences: map<string, nat>, user: string): nat {
    if user in sequences then sequences[user] else 0
  }

  function Buffered(buffers: map<string, seq<Entry>>, user: string): seq<Entry> {
    if user in buffers then buffers[user] else []
  }

  /** The end of a list from the position `-size` counted from behind, as the list language slices it: from
      the start for a size of nought or more than the length, and from the front for a negative size. */
  function SliceFromBehind<T>(ts: seq<T>, size: int): seq<T> {
    if size > 0 then (if size <= |ts| then ts[|ts|-size..] else ts)
    else if -size <= |ts| then ts[-size..]
    else []
  }

  function Trimmed(buffer: seq<Entry>, size: int): seq<Entry> {
    if |buffer| > size then SliceFromBehind(buffer, size) else buffer
  }

  function Replayed(buffer: seq<Entry>, after: int): seq<Entry> {
    if buffer == [] then []
    else if buffer[0].sequence > after then [buffer[0]] + Replayed(buffer[1..], after)
    else Replayed(buffer[1..], after)
  }

  class ConnectionManager {
    const bufferSize: int
    var sequences: map<string, nat>
    var buffers: map<string, seq<Entry>>
    ghost var history: seq<Sent>

    /** The buffers hold the trimmed logs of what was sent so far. */
    ghost predicate Valid()
      reads this
    {
      forall user :: Holds(sequences, buffers, history, bufferSize, user)
    }

    constructor (bufferSize: int)
      ensures Valid() && this.bufferSize == bufferSize && history == []
    {
      this.bufferSize := bufferSize;
      sequences, buffers, history := map[], map[], [];
    }

    method BufferMessage(user: string, message: string) returns (enriched: Entry)
      requires Valid()
      modifies this
      ensures Valid() && history == old(history) + [Sent(user, message)]
      ensures enriched == Log(history, user)[|Log(history, user)|-1]
    {
      ghost var was, oldSequences, oldBuffers := history, sequences, buffers;
      assert Holds(oldSequences, oldBuffers, was, bufferSize, user);
      var sequence := Last(sequences, user) + 1;
      sequences := sequences[user := sequence];
      enriched := Entry(sequence, message);
      var buffer := (if user in buffers then buffers[user] else []) + [enriched];
      if |buffer| > bufferSize {
        buffer := SliceFromBehind(buffer, bufferSize);
      }
      buffers := buffers[user := buffer];
      history := history + [Sent(user, message)];
      forall u ensures Holds(sequences, buffers, history, bufferSize, u) {
        assert Holds(oldSequences, oldBuffers, was, bufferSize, u);
        LogStep(was, Sent(user, message), u);
        TrimKeeps(Log(was, user), enriched, bufferSize);
      }
      LogStep(was, Sent(user, message), user);
    }

    /** What a client that has seen everything up to `after` is sent on reconnecting. */
    method GetBufferedMessages(user: string, after: int) returns (messages: seq<Entry>)
      requires Valid()
      ensures messages == Missed(Log(history, user), if after >= 0 then after else 0, bufferSize)
    {
      assert Holds(sequences, buffers, history, bufferSize, user);
      messages := Replayed(if user in buffers then buffers[user] else [], after);
      ReplayIsMissed(history, user, after, bufferSize);
    }
  }

  // ---------------------------------------------------------------- what was sent

  /** Everything ever sent to a user, numbered from one. */
  function Log(history: seq<Sent>, user: string): seq<Entry> {
    if history == [] then []
    else
      var earlier, last := Log(history[..|history|-1], user), history[|history|-1];
      if last.user == user then earlier + [Entry(|earlier| + 1, last.message)] else earlier
  }

  lemma LogStep(history: seq<Sent>, s: Sent, user: string)
    ensures Log(history + [s], user)
         == if s.user == user then Log(history, user) + [Entry(|Log(history, user)| + 1, s.message)]
           else Log(history, user)
  {
    assert (history + [s])[..|history|] == history;
  }

  ghost predicate Holds(sequences: map<string, nat>, buffers: map<string, seq<Entry>>, history: seq<Sent>, size: int,
        user: string)
  {
    Last(sequences, user) == |Log(history, user)| && Buffered(buffers, user) == Kept(Log(history, user), size)
  }

  /** What of a log the buffer keeps: the last `size` entries, all of them for a size of nought, and none
      for a negative size. */
  function Kept(log: seq<Entry>, size: int): seq<Entry> {
    if size < 0 then [] else if size == 0 || |log| <= size then log else log[|log|-size..]
  }

  lemma TrimKeeps(log: seq<Entry>, e: Entry, size: int)
    ensures Trimmed(Kept(log, size) + [e], size) == Kept(log + [e], size)
  {
  }

  /** What a client that has seen the first `after` messages misses, as far as it is still kept: with a
      positive size a message more than `size` back is lost, and everything later comes without a gap. */
  function Missed(log: seq<Entry>, after: nat, size: int): seq<Entry> {
    var from := if size > 0 && |log| - size > after then |log| - size else after;
    if size < 0 || from >= |log| then [] else log[from..]
  }

  ghost predicate Numbered(entries: seq<Entry>, first: int) {
    forall k :: 0 <= k < |entries| ==> entries[k].sequence == first + k
  }

  lemma {:induction false} LogIsNumbered(history: seq<Sent>, user: string)
    ensures Numbered(Log(history, user), 1)
  {
    if history != [] {
      LogIsNumbered(history[..|history|-1], user);
    }
  }

  lemma {:induction false} ReplayNumbered(entries: seq<Entry>, first: int, after: int)
    requires Numbered(entries, first)
    ensures Replayed(entries, after)
         == if after < first then entries else if after - first + 1 <= |entries| then entries[after-first+1..] else []
  {
    if entries != [] {
      ReplayNumbered(entries[1..], first + 1, after);
      if after >= first && after - first + 1 <= |entries| {
        assert entries[1..][after-first..] == entries[after-first+1..];
      }
    }
  }

  /** Replay is exactly what was missed and is still kept. */
  lemma ReplayIsMissed(history: seq<Sent>, user: string, after: int, size: int)
    ensures Replayed(Kept(Log(history, user), size), after)
        == Missed(Log(history, user), if after >= 0 then after else 0, size)
  {
    var log := Log(history, user);
    LogIsNumbered(history, user);
    if size > 0 && |log| > size {
      ReplayNumbered(log[|log|-size..], |log| - size + 1, after);
    } else if size >= 0 {
      ReplayNumbered(log, 1, after);
    }
  }

  lemma {:induction false} LogIsEmpty(history: seq<Sent>, user: string)
    ensures Log(history, user) == [] <==> forall k :: 0 <= k < |history| ==> history[k].user != user
  {
    if history != [] {
      LogIsEmpty(history[..|history|-1], user);
      assert forall k :: 0 <= k < |history| - 1 ==> history[..|history|-1][k] == history[k];
    }
  }

  /** The buffer holds no more than its size exactly if that is positive or the user was never sent anything: a
      size of nought keeps every message. A negative size keeps none. */
  lemma BoundedExactlyWhen(history: seq<Sent>, user: string, size: int)
    ensures size >= 0 ==>
      (|Kept(Log(history, user), size)| <= size <==>
        size > 0 || forall k :: 0 <= k < |history| ==> history[k].user != user)
    ensures size < 0 ==> Kept(Log(history, user), size) == []
  {
    LogIsEmpty(history, user);
  }

  /** While the client is no further back than the buffer reaches, it is sent exactly the messages after the
      last one it saw, without a gap and up to the latest. */
  lemma NoGapInsideBuffer(history: seq<Sent>, user: string, after: nat, size: int)
    requires size >= 0 && after <= |Log(history, user)|
    requires size == 0 || |Log(history, user)| - after <= size
    ensures var log := Log(history, user);
      Replayed(Kept(log, size), after) == log[after..] && Numbered(log[after..], after + 1)
  {
    ReplayIsMissed(history, user, after, size);
    LogIsNumbered(history, user);
  }
}
