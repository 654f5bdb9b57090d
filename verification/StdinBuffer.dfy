/** The input buffer as an object, with the loops that split it. */
module StdinBuffer {
  import opened Wrappers
  import opened Strings
  import opened StdinSpec
  import opened StdinProofs
  import opened StdinChunking

  /** The inner scan: how many characters the first sequence of `remaining` takes; 0 if it is unfinished. */
  method TakeEscape(remaining: string) returns (taken: nat)
    requires remaining != "" && remaining[0] == ESC
    ensures taken <= |remaining|
    ensures TokenLength(remaining) == if taken == 0 then None else Some(taken)
  {
    hide IsCompleteSequence;
    taken := 0;
    var seqEnd := 1;
    while seqEnd <= |remaining|
      invariant 1 <= seqEnd <= |remaining| + 1
      invariant ScanEnd(remaining, 1) == ScanEnd(remaining, seqEnd)
    {
      var candidate := remaining[..seqEnd];
      if IsCompleteSequence(candidate) == Incomplete {
        seqEnd := seqEnd + 1;
      } else {
        if candidate == PAIR && seqEnd < |remaining| && Introduces(remaining[seqEnd]) {
          assert remaining[1] == candidate[1];
          taken := 1;
        } else {
          assert seqEnd == 2 && remaining[1] == ESC ==> candidate == PAIR;
          taken := seqEnd;
        }
        return;
      }
    }
  }

  /** The outer scan, over positions. */
  method ExtractCompleteSequences(buffer: string) returns (sequences: seq<string>, remainder: string)
    ensures Extracted(sequences, remainder) == Extract(buffer)
  {
    hide TokenLength, Extract;
    sequences := [];
    var pos := 0;
    assert buffer[0..] == buffer && [] + Extract(buffer).sequences == Extract(buffer).sequences;
    while pos < |buffer|
      invariant pos <= |buffer|
      invariant Extract(buffer) == Extracted(sequences + Extract(buffer[pos..]).sequences, Extract(buffer[pos..]).remainder)
    {
      var remaining := buffer[pos..];
      ExtractStep(remaining);
      var taken := 1;
      if remaining[0] == ESC {
        taken := TakeEscape(remaining);
        if taken == 0 {
          remainder := remaining;
          assert sequences + [] == sequences;
          return;
        }
      } else {
        PlainToken(remaining);
      }
      Regroup(sequences, remaining[..taken], Extract(remaining[taken..]).sequences);
      sequences := sequences + [remaining[..taken]];
      pos := pos + taken;
      assert buffer[pos..] == remaining[taken..];
    }
    remainder := "";
    ExtractEmpty();
    assert buffer[pos..] == "" && sequences + [] == sequences;
  }

  lemma PlainToken(s: string)
    requires s != "" && s[0] != ESC
    ensures TokenLength(s) == Some(1)
  {
  }

  lemma Regroup(a: seq<string>, t: string, b: seq<string>)
    ensures a + ([t] + b) == (a + [t]) + b
  {
  }

  class StdinBuffer {
    var buffer: string
    var pasteMode: bool
    var pasteBuffer: string
    var pending: Option<nat>
    var timer: bool
    var emitted: seq<Event>  // what the listeners have been given so far

    ghost function Now(): State
      reads this
    {
      State(buffer, pasteMode, pasteBuffer, pending, timer)
    }

    constructor ()
      ensures Now() == IDLE && emitted == []
    {
      buffer, pasteMode, pasteBuffer, pending, timer, emitted := "", false, "", None, false, [];
    }

    method EmitDataSequence(sequence: string)
      modifies this`pending, this`emitted
      ensures var e := EmitOne(old(pending), sequence); pending == e.pending && emitted == old(emitted) + e.events
    {
      if |sequence| == 1 && pending == Some(sequence[0] as nat) {
        pending := None;
        return;
      }
      pending := KittyPrintable(sequence);
      emitted := emitted + [Data(sequence)];
    }

    method EmitAllSequences(sequences: seq<string>)
      modifies this`pending, this`emitted
      ensures var e := EmitAll(old(pending), sequences); pending == e.pending && emitted == old(emitted) + e.events
    {
      for i := 0 to |sequences|
        invariant var e := EmitAll(old(pending), sequences[..i]); pending == e.pending && emitted == old(emitted) + e.events
      {
        hide EmitOne;
        EmitConcat(old(pending), sequences[..i], [sequences[i]]);
        assert sequences[..i + 1] == sequences[..i] + [sequences[i]];
        OneOfAll(pending, sequences[i]);
        EmitDataSequence(sequences[i]);
      }
      assert sequences[..|sequences|] == sequences;
    }

    /** Feed `data`; what it adds to `emitted` and the state it leaves are those of `StdinSpec.Process`. */
    method Process(data: string)
      requires Now().Valid()
      modifies this
      ensures Now().Valid()
      ensures var r := StdinSpec.Process(old(Now()), data); Now() == r.state && emitted == old(emitted) + r.events
      decreases |data| + |buffer| + |pasteBuffer|, 1
    {
      hide Text, Content, Extract, EmitAll;
      ProcessKeepsValid(Now(), data);
      timer := false;
      if |data| == 0 && |buffer| == 0 {
        EmitDataSequence("");
        return;
      }
      buffer := buffer + data;
      if pasteMode {
        pasteBuffer := pasteBuffer + buffer;
        buffer := "";
        assert pasteBuffer == old(pasteBuffer) + old(buffer) + data;
        ScanPaste();
        return;
      }
      TextSplit(buffer, pending);
      var start := IndexOf(buffer, PASTE_START);
      if start.Some? {
        BeginPaste(start.value);
        ScanPaste();
        return;
      }
      var sequences, remainder := ExtractCompleteSequences(buffer);
      buffer := remainder;
      EmitAllSequences(sequences);
      if |buffer| > 0 { timer := true; }
    }

    /** Report what stands before the paste marker at `start`, and enter paste mode. */
    method BeginPaste(start: nat)
      requires IndexOf(buffer, PASTE_START) == Some(start)
      modifies this
      ensures start + 6 <= |old(buffer)| && pasteMode && pasteBuffer == old(buffer)[start + 6..]
      ensures buffer == "" && pending == None && timer == old(timer)
      ensures emitted == old(emitted) + EmitAll(old(pending), Extract(old(buffer)[..start]).sequences).events
    {
      hide Extract, EmitAll;
      MarkerPlace(buffer, start);
      if start > 0 {
        var sequences, _ := ExtractCompleteSequences(buffer[..start]);
        EmitAllSequences(sequences);
      } else {
        NothingBefore(buffer, pending);
      }
      pending := None;
      pasteMode := true;
      pasteBuffer := buffer[start + 6..];
      buffer := "";
    }

    /** In paste mode: look for the end of the paste, and go on with what follows it. */
    method ScanPaste()
      requires pasteMode && buffer == "" && pending == None && !timer
      modifies this
      ensures Now().Valid()
      ensures var r := Content(old(pasteBuffer)); Now() == r.state && emitted == old(emitted) + r.events
      decreases |pasteBuffer|, 0
    {
      hide Text, Content;
      ContentSplit(pasteBuffer);
      var end := IndexOf(pasteBuffer, PASTE_END);
      if end.Some? {
        var pastedContent := pasteBuffer[..end.value];
        var remaining := pasteBuffer[end.value + 6..];
        pasteMode := false;
        pasteBuffer := "";
        pending := None;
        emitted := emitted + [Paste(pastedContent)];
        TextEmpty();
        assert "" + remaining == remaining;
        if |remaining| > 0 { Process(remaining); }
      }
    }

    /** The timeout: report the unfinished sequence as it is. */
    method OnTimeout()
      modifies this
      ensures var r := StdinSpec.Flush(old(Now())); Now() == r.state && emitted == old(emitted) + r.events
    {
      timer := false;
      if |buffer| == 0 { return; }
      var flushed := buffer;
      buffer := "";
      pending := None;
      EmitDataSequence(flushed);
    }
  }

  lemma OneOfAll(p: Option<nat>, s: string)
    ensures EmitAll(p, [s]) == EmitOne(p, s)
  {
    hide EmitOne;
    assert [s][1..] == [];
    assert EmitOne(p, s).events + [] == EmitOne(p, s).events;
  }

  lemma NothingBefore(t: string, p: Option<nat>)
    ensures t[..0] == "" && EmitAll(p, Extract(t[..0]).sequences) == Emitted(p, [])
  {
    ExtractEmpty();
  }

  lemma TextEmpty()
    ensures Text("", None) == Result(IDLE, [])
  {
    ExtractEmpty();
  }
}
