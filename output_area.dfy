/**
 * The output area model of a code cell: an ordered list of output records
 * that merges consecutive stream output on one channel, drops records of an
 * unknown kind, and can defer a clear until the next record arrives; and the
 * synchronous part of executing code, which feeds the kernel's IOPub messages
 * into it.
 */
module OutputArea {
  import opened Nbformat
  import opened OutputList

  class OutputAreaModel {
    /** The stored records, in order; empty once disposed. */
    var items: seq<Output>
    /** A clear was requested with `wait`; it happens at the start of the next add. */
    var clearNext: bool
    /** The list has been released. */
    var disposed: bool

    ghost predicate Valid()
      reads this
    {
      (disposed ==> items == []) && WellFormed(items) && Coalesced(items)
    }

    constructor ()
      ensures Valid() && items == [] && !clearNext && !disposed
    {
      items := [];
      clearNext := false;
      disposed := false;
    }

    /** The list the next add starts from: empty while a clear is pending. */
    ghost function Upcoming(): seq<Output>
      reads this
    {
      if clearNext then [] else items
    }

    /** The number of stored records; 0 on a disposed model. */
    function Length(): (n: nat)
      reads this
      ensures Valid() ==> n == |items|
      ensures disposed ==> n == 0
    {
      if disposed then 0 else |items|
    }

    function IsDisposed(): (r: bool)
      reads this
      ensures r ==> Length() == 0
    {
      disposed
    }

    /** Releases the records; a second call does nothing. A pending clear is left as it was. */
    method Dispose()
      requires Valid()
      modifies this
      ensures Valid() && IsDisposed() && Length() == 0
      ensures items == [] && clearNext == old(clearNext)
    {
      if disposed {
        return;
      }
      items := [];
      disposed := true;
    }

    method Get(index: int) returns (o: Output)
      requires !disposed && 0 <= index < |items|
      ensures o == items[index]
    {
      o := items[index];
    }

    /**
     * Adds a record, first carrying out a pending clear. Returns the index the
     * record was written to, or -1 when its kind is unknown.
     */
    method Add(output: Output) returns (index: int)
      requires !disposed
      modifies this
      ensures old(Valid()) ==> Valid()
      ensures !disposed && !clearNext
      ensures items == AddTo(old(Upcoming()), output).0 && index == AddTo(old(Upcoming()), output).1
      ensures old(clearNext) ==>
        if IsOutputType(output.outputType) then items == [Normalize(output)] && index == 0
        else items == [] && index == -1
    {
      if clearNext {
        var removed := Clear();
        clearNext := false;
      }
      ghost var before := items;
      var o := Normalize(output);
      index := Length() - 1;
      if index >= 0 && Merges(items[index], o) {
        items := items[index := Merged(items[index], o)];
        assert items == before[..index] + [Merged(before[index], o)];
      } else if IsOutputType(o.outputType) {
        items := items + [o];
        index := |items| - 1;
      } else {
        index := -1;
      }
      if old(Valid()) {
        AddKeepsInvariant(before, output);
      }
    }

    /**
     * With `wait`, only marks a clear as pending and returns nothing;
     * otherwise empties the list now and returns what it held.
     */
    method Clear(wait: bool := false) returns (removed: seq<Output>)
      requires wait || !disposed
      modifies this
      ensures old(Valid()) ==> Valid()
      ensures disposed == old(disposed)
      ensures wait ==> removed == [] && items == old(items) && clearNext
      ensures !wait ==> removed == old(items) && items == [] && clearNext == old(clearNext)
    {
      if wait {
        clearNext := true;
        removed := [];
        return;
      }
      removed := items;
      items := [];
    }
  }

  /** An IOPub message of the kernel: its header's msg_type and its content, if any. */
  datatype Message = Message(msgType: string, content: Option<Output>)

  /** The record a message with content becomes: its content, with `output_type` set to the message's `msg_type`. */
  function Record(message: Message): (record: Output)
    requires message.content.Some?
    ensures record.outputType == message.msgType
    ensures record.name == message.content.value.name && record.text == message.content.value.text
    ensures record.rest == message.content.value.rest
  {
    message.content.value.(outputType := message.msgType)
  }

  /** The records the messages become, in arrival order; messages without content become none. */
  function Records(messages: seq<Message>): (records: seq<Output>)
    ensures |records| <= |messages|
  {
    if messages == [] then []
    else
      var last := messages[|messages| - 1];
      Records(messages[..|messages| - 1]) + (if last.content.Some? then [Record(last)] else [])
  }

  /** Every message with content yields exactly one record. */
  lemma {:induction false} RecordsCount(messages: seq<Message>)
    requires forall i :: 0 <= i < |messages| ==> messages[i].content.Some?
    ensures |Records(messages)| == |messages|
    ensures forall i :: 0 <= i < |messages| ==> Records(messages)[i] == Record(messages[i])
  {
    if messages != [] {
      var init := messages[..|messages| - 1];
      RecordsCount(init);
    }
  }

  lemma RecordsStep(messages: seq<Message>, i: nat)
    requires i < |messages|
    ensures messages[i].content.Some? ==> Records(messages[..i + 1]) == Records(messages[..i]) + [Record(messages[i])]
    ensures messages[i].content.None? ==> Records(messages[..i + 1]) == Records(messages[..i])
  {
    assert messages[..i + 1][..i] == messages[..i];
  }

  lemma AddAllStep(records: seq<Output>, record: Output)
    ensures AddAll([], records + [record]) == AddTo(AddAll([], records), record).0
  {
    assert (records + [record])[..|records|] == records;
  }

  /** The IOPub handler of an execution: a message with content is added, typed by its msg_type. */
  method OnIOPub(outputs: OutputAreaModel, message: Message)
    requires !outputs.disposed
    modifies outputs
    ensures old(outputs.Valid()) ==> outputs.Valid()
    ensures !outputs.disposed
    ensures message.content.None? ==> outputs.items == old(outputs.items) && outputs.clearNext == old(outputs.clearNext)
    ensures message.content.Some? ==> outputs.items == AddTo(old(outputs.Upcoming()), Record(message)).0 && !outputs.clearNext
  {
    if message.content.Some? {
      var index := outputs.Add(Record(message));
    }
  }

  /**
   * Clears `outputs` at once, then hands each message to the IOPub handler,
   * in arrival order.
   */
  method ExecuteCode(outputs: OutputAreaModel, messages: seq<Message>)
    requires !outputs.disposed
    modifies outputs
    ensures outputs.Valid() && !outputs.disposed
    ensures outputs.items == AddAll([], Records(messages))
    ensures outputs.clearNext == (old(outputs.clearNext) && Records(messages) == [])
  {
    var removed := outputs.Clear();
    ghost var pending := outputs.clearNext;
    ghost var done: seq<Output> := [];
    var i := 0;
    while i < |messages|
      invariant 0 <= i <= |messages|
      invariant done == Records(messages[..i])
      invariant !outputs.disposed
      invariant outputs.items == outputs.Upcoming() == AddAll([], done)
      invariant outputs.clearNext == (pending && done == [])
    {
      RecordsStep(messages, i);
      if messages[i].content.Some? {
        AddAllStep(done, Record(messages[i]));
      }
      OnIOPub(outputs, messages[i]);
      done := Records(messages[..i + 1]);
      i := i + 1;
    }
    assert messages[..|messages|] == messages;
    AddAllInvariant(Records(messages));
  }
}
