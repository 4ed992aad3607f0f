/**
 * The code-cell output records of the Jupyter Notebook Format v4, as far as
 * the output area needs them: the four output kinds, the stream test, and the
 * joining of multiline stream text that arrives as an array of fragments.
 */
module Nbformat {

  datatype Option<T> = None | Some(value: T)

  /** Stream text as it may arrive: one string, or an array of line fragments. */
  datatype Text = Str(s: string) | Lines(fragments: seq<string>)

  /**
   * One output record. `name` is the stream channel (`stdout`, `stderr`),
   * absent on the other kinds; `rest` holds every other field of the record
   * (data, metadata, execution_count, ename, evalue, traceback) as key/value
   * pairs, which the output area never looks into.
   */
  datatype Output = Output(outputType: string, name: Option<string>, text: Text, rest: seq<(string, string)>)

  const Stream: string := "stream"
  const ExecuteResult: string := "execute_result"
  const DisplayData: string := "display_data"
  const Error: string := "error"

  /** The four output types a code cell may hold. */
  predicate IsOutputType(kind: string)
  {
    kind == Stream || kind == ExecuteResult || kind == DisplayData || kind == Error
  }

  predicate IsStream(o: Output)
  {
    o.outputType == Stream
  }

  /** The fragments separated by one newline each, as `Array.prototype.join("\n")`. */
  function Join(fragments: seq<string>): string
  {
    if |fragments| == 0 then ""
    else if |fragments| == 1 then fragments[0]
    else fragments[0] + "\n" + Join(fragments[1..])
  }

  /** The lines of `s`: the pieces between newlines, an empty piece included. */
  function Split(s: string): (lines: seq<string>)
    ensures |lines| >= 1
    ensures forall i :: 0 <= i < |lines| ==> '\n' !in lines[i]
  {
    if s == [] then [""]
    else
      var rest := Split(s[1..]);
      if s[0] == '\n' then [""] + rest
      else [[s[0]] + rest[0]] + rest[1..]
  }

  lemma {:induction false} SplitPlain(a: string)
    requires '\n' !in a
    ensures Split(a) == [a]
  {
    if a != [] {
      SplitPlain(a[1..]);
      assert [a[0]] + a[1..] == a;
    }
  }

  lemma {:induction false} SplitAtNewline(a: string, b: string)
    requires '\n' !in a
    ensures Split(a + "\n" + b) == [a] + Split(b)
  {
    if a == [] {
      assert (a + "\n" + b)[1..] == b;
    } else {
      assert (a + "\n" + b)[1..] == a[1..] + "\n" + b;
      SplitAtNewline(a[1..], b);
      assert [a[0]] + a[1..] == a;
    }
  }

  /** Joining loses nothing: fragments without newlines are recovered from the joined text. */
  lemma {:induction false} SplitOfJoin(fragments: seq<string>)
    requires |fragments| > 0
    requires forall i :: 0 <= i < |fragments| ==> '\n' !in fragments[i]
    ensures Split(Join(fragments)) == fragments
  {
    if |fragments| == 1 {
      SplitPlain(fragments[0]);
    } else {
      var tail := fragments[1..];
      assert Join(fragments) == fragments[0] + "\n" + Join(tail);
      SplitAtNewline(fragments[0], Join(tail));
      assert forall i :: 0 <= i < |tail| ==> tail[i] == fragments[i + 1];
      SplitOfJoin(tail);
      assert [fragments[0]] + tail == fragments;
    }
  }

  /** Every text is the join of its own lines. */
  lemma {:induction false} JoinOfSplit(s: string)
    ensures Join(Split(s)) == s
  {
    if s != [] {
      var rest := Split(s[1..]);
      JoinOfSplit(s[1..]);
      if s[0] == '\n' {
        assert ([""] + rest)[1..] == rest;
      } else if |rest| > 1 {
        assert ([[s[0]] + rest[0]] + rest[1..])[1..] == rest[1..];
      }
    }
  }

  /** The text as one string; fragments are joined with newlines. */
  function Flat(t: Text): string
  {
    match t
    case Str(s) => s
    case Lines(fragments) => Join(fragments)
  }

  /** A stream record's text arriving as fragments is joined into one string; nothing else changes. */
  function Normalize(o: Output): (r: Output)
    ensures r.outputType == o.outputType && r.name == o.name && r.rest == o.rest
    ensures Flat(r.text) == Flat(o.text)
    ensures IsStream(o) ==> r.text.Str?
    ensures !IsStream(o) ==> r == o
    ensures o.text.Str? ==> r == o
  {
    if IsStream(o) && o.text.Lines? then o.(text := Str(Join(o.text.fragments))) else o
  }
}
