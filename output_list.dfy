/**
 * What one `add` does to the list of stored outputs, as a function of the
 * list and the incoming record, together with the invariants it keeps and
 * what a run of adds accumulates per stream channel.
 */
module OutputList {
  import opened Nbformat

  /** The merge test: the last entry and the new record are streams on the same channel. */
  predicate Merges(last: Output, o: Output)
  {
    IsStream(last) && IsStream(o) && last.name == o.name
  }

  /** The entry written over the last one: texts concatenated, every other field from the new record. */
  function Merged(last: Output, o: Output): Output
  {
    o.(text := Str(Flat(last.text) + Flat(o.text)))
  }

  /**
   * The list after adding `output`, and the index `add` returns: the index
   * written (merge), the new last index (append), or -1 (unknown kind).
   */
  function AddTo(list: seq<Output>, output: Output): (r: (seq<Output>, int))
    ensures -1 <= r.1 < |r.0|
    ensures r.1 == -1 <==> !IsOutputType(output.outputType)
    ensures r.1 == -1 ==> r.0 == list
    ensures r.1 >= 0 ==> |list| - 1 <= r.1 <= |list| && r.0[..r.1] == list[..r.1]
    ensures |list| > 0 && Merges(list[|list| - 1], output) ==>
      && |r.0| == |list|
      && r.1 == |list| - 1
      && r.0[r.1].text == Str(Flat(list[|list| - 1].text) + Flat(output.text))
      && r.0[r.1].outputType == output.outputType
      && r.0[r.1].name == output.name
      && r.0[r.1].rest == output.rest
    ensures !(|list| > 0 && Merges(list[|list| - 1], output)) && IsOutputType(output.outputType) ==>
      r.0 == list + [Normalize(output)] && r.1 == |list|
  {
    var o := Normalize(output);
    var index := |list| - 1;
    if index >= 0 && Merges(list[index], o) then
      (list[..index] + [Merged(list[index], o)], index)
    else if IsOutputType(o.outputType) then
      (list + [o], |list|)
    else
      (list, -1)
  }

  /** Every stored entry is of a known kind, and stored stream text is one string. */
  ghost predicate WellFormed(list: seq<Output>)
  {
    forall i :: 0 <= i < |list| ==> IsOutputType(list[i].outputType) && (IsStream(list[i]) ==> list[i].text.Str?)
  }

  /** No two neighbouring entries are streams on the same channel. */
  ghost predicate Coalesced(list: seq<Output>)
  {
    forall i :: 0 < i < |list| ==> !Merges(list[i - 1], list[i])
  }

  /** Adding keeps the stored list well formed and coalesced. */
  lemma AddKeepsInvariant(list: seq<Output>, output: Output)
    requires WellFormed(list) && Coalesced(list)
    ensures WellFormed(AddTo(list, output).0) && Coalesced(AddTo(list, output).0)
  {
    var o := Normalize(output);
    if |list| > 0 && Merges(list[|list| - 1], o) {
      var init := list[..|list| - 1];
      var m := Merged(list[|list| - 1], o);
      assert AddTo(list, output).0 == init + [m];
      assert (init + [m])[..|init|] == init;
      if |init| > 0 {
        assert !Merges(init[|init| - 1], list[|list| - 1]);
      }
    } else if IsOutputType(o.outputType) {
      assert AddTo(list, output).0 == list + [o];
      assert (list + [o])[..|list|] == list;
    }
  }

  /** The list after adding each record in turn. */
  function AddAll(list: seq<Output>, records: seq<Output>): seq<Output>
  {
    if records == [] then list
    else AddTo(AddAll(list, records[..|records| - 1]), records[|records| - 1]).0
  }

  /** The text a record contributes to `channel`. */
  function ChannelText(o: Output, channel: Option<string>): string
  {
    if IsStream(o) && o.name == channel then Flat(o.text) else ""
  }

  /** The text of the stream entries on `channel`, concatenated in list order. */
  function StreamText(list: seq<Output>, channel: Option<string>): string
  {
    if list == [] then ""
    else
      var last := list[|list| - 1];
      StreamText(list[..|list| - 1], channel) + ChannelText(last, channel)
  }

  lemma {:induction false} StreamTextAppend(list: seq<Output>, o: Output, channel: Option<string>)
    ensures StreamText(list + [o], channel) == StreamText(list, channel) + ChannelText(o, channel)
  {
    assert (list + [o])[..|list|] == list;
  }

  /** Writing the merged entry over the last one extends the shared channel's text by the new text. */
  lemma {:induction false} MergeKeepsStreamText(init: seq<Output>, last: Output, o: Output, channel: Option<string>)
    requires Merges(last, o)
    ensures StreamText(init + [Merged(last, o)], channel) == StreamText(init + [last], channel) + ChannelText(o, channel)
  {
    StreamTextAppend(init, last, channel);
    StreamTextAppend(init, Merged(last, o), channel);
    var before := StreamText(init, channel);
    if o.name == channel {
      assert before + (Flat(last.text) + Flat(o.text)) == (before + Flat(last.text)) + Flat(o.text);
    }
  }

  lemma {:induction false} AddKeepsStreamTextOnMerge(list: seq<Output>, output: Output, channel: Option<string>)
    requires |list| > 0 && Merges(list[|list| - 1], Normalize(output))
    ensures StreamText(AddTo(list, output).0, channel) == StreamText(list, channel) + ChannelText(output, channel)
  {
    var init, last := list[..|list| - 1], list[|list| - 1];
    assert list == init + [last];
    MergeKeepsStreamText(init, last, Normalize(output), channel);
  }

  lemma {:induction false} AddKeepsStreamTextOnAppend(list: seq<Output>, output: Output, channel: Option<string>)
    requires !(|list| > 0 && Merges(list[|list| - 1], Normalize(output)))
    ensures StreamText(AddTo(list, output).0, channel) == StreamText(list, channel) + ChannelText(output, channel)
  {
    if IsOutputType(output.outputType) {
      StreamTextAppend(list, Normalize(output), channel);
    }
  }

  /** Adding a record extends its channel's text by the record's text and leaves other channels alone. */
  lemma {:induction false} AddKeepsStreamText(list: seq<Output>, output: Output, channel: Option<string>)
    ensures StreamText(AddTo(list, output).0, channel) == StreamText(list, channel) + ChannelText(output, channel)
  {
    if |list| > 0 && Merges(list[|list| - 1], Normalize(output)) {
      AddKeepsStreamTextOnMerge(list, output, channel);
    } else {
      AddKeepsStreamTextOnAppend(list, output, channel);
    }
  }

  /**
   * A run of adds loses and reorders nothing on any channel: the stored text
   * of a channel is the text of that channel's incoming records, in order.
   */
  lemma {:induction false} AddAllKeepsStreamText(records: seq<Output>, channel: Option<string>)
    ensures StreamText(AddAll([], records), channel) == StreamText(records, channel)
  {
    if records != [] {
      var init := records[..|records| - 1];
      var last := records[|records| - 1];
      AddAllKeepsStreamText(init, channel);
      AddKeepsStreamText(AddAll([], init), last, channel);
    }
  }

  /** A run of adds from an empty list leaves it well formed and coalesced, with at most one entry per record. */
  lemma {:induction false} AddAllInvariant(records: seq<Output>)
    ensures WellFormed(AddAll([], records)) && Coalesced(AddAll([], records))
    ensures |AddAll([], records)| <= |records|
  {
    if records != [] {
      var init := records[..|records| - 1];
      AddAllInvariant(init);
      AddKeepsInvariant(AddAll([], init), records[|records| - 1]);
    }
  }

  /** Only the last entry is merged with: stdout text after a display_data entry starts a new entry. */
  lemma StreamAfterDisplayStaysSeparate()
    ensures var a := Output(Stream, Some("stdout"), Str("a"), []);
            var d := Output(DisplayData, None, Str(""), []);
            var b := Output(Stream, Some("stdout"), Str("b"), []);
            AddAll([], [a, d, b]) == [a, d, b]
  {
    var a := Output(Stream, Some("stdout"), Str("a"), []);
    var d := Output(DisplayData, None, Str(""), []);
    var b := Output(Stream, Some("stdout"), Str("b"), []);
    assert [a, d, b][..2] == [a, d];
    assert [a, d][..1] == [a];
    assert AddAll([], [a]) == [a];
    assert AddAll([], [a, d]) == AddTo([a], d).0 == [a, d];
    assert AddAll([], [a, d, b]) == AddTo([a, d], b).0;
  }

  /** Two writes to stdout merge into one entry; a following write to stderr starts a second one. */
  lemma StdoutThenStderr()
    ensures var a := Output(Stream, Some("stdout"), Str("a"), []);
            var b := Output(Stream, Some("stdout"), Str("b"), []);
            var c := Output(Stream, Some("stderr"), Str("c"), []);
            && AddAll([], [a]) == [a]
            && AddAll([], [a, b]) == [Output(Stream, Some("stdout"), Str("ab"), [])]
            && AddAll([], [a, b, c]) == [Output(Stream, Some("stdout"), Str("ab"), []), c]
  {
    var a := Output(Stream, Some("stdout"), Str("a"), []);
    var b := Output(Stream, Some("stdout"), Str("b"), []);
    var c := Output(Stream, Some("stderr"), Str("c"), []);
    assert [a, b][..1] == [a];
    assert AddAll([], [a]) == [a];
    assert "a" + "b" == "ab";
    assert AddAll([], [a, b]) == AddTo([a], b).0 == [Merged(a, b)];
    assert [a, b, c][..2] == [a, b];
    assert Some("stdout") != Some("stderr") by {
      assert "stdout"[4] != "stderr"[4];
    }
  }
}
