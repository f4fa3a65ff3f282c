/** The line-message pump between the engine and the game wrapper
    (IOHandler). The input source is a sequence of lines with a cursor: the
    lines of standard input in live mode, the lines of a replay file in file
    mode. Standard output is the sequence of lines written so far. */
module Protocol {
  import opened Wrappers
  import opened Strings

  /** Which source the handler reads: IOHandler.java has a reader exactly in File mode. */
  datatype Mode = Live | File

  /** How a read can fail. NoMoreInput is the IOException "No more input.";
      NoSuchElement is the unchecked exception Scanner.nextLine throws when
      only blank lines were left after hasNextLine said there was a line. */
  datatype ReadError = NoMoreInput | NoSuchElement

  /** The outcome of one read and the cursor after it. */
  datatype Read = Read(message: Result<string, ReadError>, cursor: nat)

  /** getNextMessageFromFile on the lines `input` with the reader at `cursor`. */
  function FileRead(input: seq<string>, cursor: nat): (r: Read)
    ensures r.message.Ok? <==> cursor < |input|
    ensures r.message.Ok? ==> r.message.value == input[cursor] && r.cursor == cursor + 1
    ensures r.message.Err? ==> r.message.error == NoMoreInput && r.cursor == cursor
  {
    if cursor < |input| then Read(Ok(input[cursor]), cursor + 1) else Read(Err(NoMoreInput), cursor)
  }

  /** The index of the first non-blank line at or after `from`, if any. */
  function FirstNonBlank(input: seq<string>, from: nat): (k: Option<nat>)
    ensures k.Some? ==> from <= k.value < |input| && !IsBlank(input[k.value])
    ensures forall j :: from <= j < |input| && (k.None? || j < k.value) ==> IsBlank(input[j])
    decreases |input| - from
  {
    if from >= |input| then None
    else if !IsBlank(input[from]) then Some(from)
    else FirstNonBlank(input, from + 1)
  }

  /** getNextMessageFromInStream on the lines `input` with the scanner at
      `cursor`: the trim of the first non-blank line, consuming it and the
      blank lines before it. */
  function LiveRead(input: seq<string>, cursor: nat): (r: Read)
    ensures cursor >= |input| ==> r == Read(Err(NoMoreInput), cursor)
    ensures cursor < |input| ==> r.message != Err(NoMoreInput)
    ensures cursor < |input| ==> (r.message.Ok? <==> FirstNonBlank(input, cursor).Some?)
    ensures r.message.Ok? ==> r.cursor == FirstNonBlank(input, cursor).value + 1
    ensures r.message.Ok? ==>
      && cursor < r.cursor <= |input|
      && r.message.value == Trim(input[r.cursor - 1])
      && r.message.value != []
      && forall j :: cursor <= j < r.cursor - 1 ==> IsBlank(input[j])
    ensures r.message.Err? && r.message.error == NoSuchElement ==>
      && cursor < |input| && r.cursor == |input|
      && forall j :: cursor <= j < |input| ==> IsBlank(input[j])
  {
    if cursor >= |input| then Read(Err(NoMoreInput), cursor)
    else
      var k := FirstNonBlank(input, cursor);
      if k.None? then Read(Err(NoSuchElement), |input|)
      else Read(Ok(Trim(input[k.value])), k.value + 1)
  }

  /** A live-mode message is already trimmed. */
  lemma LiveMessageIsTrimmed(input: seq<string>, cursor: nat)
    requires LiveRead(input, cursor).message.Ok?
    ensures var m := LiveRead(input, cursor).message.value; m != [] && Trim(m) == m
  {
  }

  /** getNextMessage: file mode exactly when there is a reader. */
  function ReadNext(mode: Mode, input: seq<string>, cursor: nat): (r: Read)
    requires cursor <= |input|
    ensures cursor <= r.cursor <= |input|
    ensures r.message.Ok? ==> cursor < r.cursor
    ensures r.message.Err? && r.message.error == NoMoreInput <==> cursor == |input|
    ensures r.message.Err? && r.message.error == NoMoreInput ==> r.cursor == cursor
    ensures r.message.Err? && r.message.error == NoSuchElement ==> mode.Live? && r.cursor == |input|
  {
    if mode.File? then
      var r := FileRead(input, cursor);
      assert r.message.Err? ==> r.message.error == NoMoreInput;
      r
    else LiveRead(input, cursor)
  }

  /** How a wait ends: on the expected message, silently on exhausted input,
      or with the NoSuchElement exception escaping (it is not an IOException,
      so the loop does not catch it). */
  datatype WaitEnd = Matched | Exhausted | Aborted

  /** The end of a wait, the cursor after it, and the messages it read. */
  datatype WaitRun = WaitRun(end: WaitEnd, cursor: nat, received: seq<string>)

  /** waitForMessage: read until a message equals `expected`. */
  function Wait(mode: Mode, input: seq<string>, cursor: nat, expected: string): (w: WaitRun)
    requires cursor <= |input|
    ensures cursor <= w.cursor <= |input|
    ensures cursor < |input| ==> cursor < w.cursor
    ensures w.end == Exhausted ==> w.cursor == |input|
    ensures w.end == Aborted ==> mode.Live? && w.cursor == |input|
    ensures w.end == Matched ==> |w.received| > 0 && w.received[|w.received| - 1] == expected
    ensures forall i :: 0 <= i < |w.received| - (if w.end == Matched then 1 else 0) ==> w.received[i] != expected
    decreases |input| - cursor
  {
    var r := ReadNext(mode, input, cursor);
    match r.message
    case Err(NoMoreInput) => WaitRun(Exhausted, cursor, [])
    case Err(NoSuchElement) => WaitRun(Aborted, r.cursor, [])
    case Ok(m) =>
      if m == expected then WaitRun(Matched, r.cursor, [m])
      else
        var w := Wait(mode, input, r.cursor, expected);
        WaitRun(w.end, w.cursor, [m] + w.received)
  }

  /** In file mode a wait reads every line it consumes, verbatim and in order. */
  lemma {:induction false} FileWaitReadsVerbatim(input: seq<string>, cursor: nat, expected: string)
    requires cursor <= |input|
    ensures var w := Wait(File, input, cursor, expected);
      w.end != Aborted && w.received == input[cursor..w.cursor]
    decreases |input| - cursor
  {
    if cursor < |input| && input[cursor] != expected {
      FileWaitReadsVerbatim(input, cursor + 1, expected);
      var w := Wait(File, input, cursor + 1, expected);
      assert input[cursor..w.cursor] == [input[cursor]] + input[cursor + 1..w.cursor];
    }
  }

  /** In file mode a wait finds the expected line exactly when it is still
      ahead, and then stops on its first occurrence; otherwise it consumes
      the whole input and returns silently. */
  lemma FileWaitFindsFirstMatch(input: seq<string>, cursor: nat, expected: string)
    requires cursor <= |input|
    ensures var w := Wait(File, input, cursor, expected);
      && (w.end == Matched <==> expected in input[cursor..])
      && (w.end == Matched ==> input[w.cursor - 1] == expected &&
                               forall j :: cursor <= j < w.cursor - 1 ==> input[j] != expected)
      && (w.end != Matched ==> w.end == Exhausted && w.cursor == |input|)
  {
    var w := Wait(File, input, cursor, expected);
    FileWaitReadsVerbatim(input, cursor, expected);
    if w.end == Matched {
      assert input[w.cursor - 1] == w.received[|w.received| - 1];
      forall j | cursor <= j < w.cursor - 1
        ensures input[j] != expected
      {
        assert input[j] == w.received[j - cursor];
      }
    } else {
      forall j | cursor <= j < |input|
        ensures input[j] != expected
      {
        assert input[j] == w.received[j - cursor];
      }
    }
  }

  /** The messages live mode makes of some lines: the trims of the non-blank ones. */
  function Messages(lines: seq<string>): (ms: seq<string>)
    ensures |ms| <= |lines|
  {
    if lines == [] then []
    else (if IsBlank(lines[0]) then [] else [Trim(lines[0])]) + Messages(lines[1..])
  }

  lemma {:induction false} MessagesOfBlanks(lines: seq<string>)
    requires forall j :: 0 <= j < |lines| ==> IsBlank(lines[j])
    ensures Messages(lines) == []
  {
    if lines != [] {
      MessagesOfBlanks(lines[1..]);
    }
  }

  lemma {:induction false} MessagesAppend(a: seq<string>, b: seq<string>)
    ensures Messages(a + b) == Messages(a) + Messages(b)
  {
    if a == [] {
      assert a + b == b;
    } else {
      var head := if IsBlank(a[0]) then [] else [Trim(a[0])];
      assert (a + b)[0] == a[0];
      assert (a + b)[1..] == a[1..] + b;
      assert Messages(a + b) == head + Messages(a[1..] + b);
      MessagesAppend(a[1..], b);
      assert Messages(a) == head + Messages(a[1..]);
    }
  }

  /** The messages of adjacent runs of lines add up. */
  lemma MessagesOfSplit(input: seq<string>, i: nat, j: nat, k: nat)
    requires i <= j <= k <= |input|
    ensures Messages(input[i..k]) == Messages(input[i..j]) + Messages(input[j..k])
  {
    assert input[i..k] == input[i..j] + input[j..k];
    MessagesAppend(input[i..j], input[j..k]);
  }

  /** One successful live read consumes lines whose only message is the one read. */
  lemma LiveReadMessages(input: seq<string>, cursor: nat)
    requires LiveRead(input, cursor).message.Ok?
    ensures var r := LiveRead(input, cursor);
      Messages(input[cursor..r.cursor]) == [r.message.value]
  {
    var r := LiveRead(input, cursor);
    var k := r.cursor - 1;
    MessagesOfBlanks(input[cursor..k]);
    assert input[k..k + 1] == [input[k]];
    assert Messages(input[k..k + 1]) == [r.message.value];
    assert input[cursor..r.cursor] == input[cursor..k] + input[k..k + 1];
    MessagesAppend(input[cursor..k], input[k..k + 1]);
  }

  /** In live mode a wait reads exactly the trims of the non-blank lines it
      consumes, in order. */
  /** One round of a live wait: the read skips to the first non-blank line
      k, and the wait stops if its trim is the expected message and goes on
      after k otherwise. */
  lemma LiveWaitStep(input: seq<string>, cursor: nat, k: nat, expected: string)
    requires cursor <= k < |input| && !IsBlank(input[k])
    requires forall j :: cursor <= j < k ==> IsBlank(input[j])
    ensures var m, w := Trim(input[k]), Wait(Live, input, k + 1, expected);
      Wait(Live, input, cursor, expected) ==
        if m == expected then WaitRun(Matched, k + 1, [m]) else WaitRun(w.end, w.cursor, [m] + w.received)
  {
    assert LiveRead(input, cursor) == Read(Ok(Trim(input[k])), k + 1);
  }

  /** A live wait whose first read fails reads nothing from lines that hold
      no message. */
  lemma LiveWaitWithoutMessage(input: seq<string>, cursor: nat, expected: string)
    requires cursor <= |input| && LiveRead(input, cursor).message.Err?
    ensures var w := Wait(Live, input, cursor, expected);
      w.received == [] && Messages(input[cursor..w.cursor]) == []
  {
    var r := LiveRead(input, cursor);
    assert Wait(Live, input, cursor, expected) == WaitRun(if r.message.error == NoMoreInput then Exhausted else Aborted, r.cursor, []);
    MessagesOfBlanks(input[cursor..r.cursor]);
  }

  lemma {:induction false} LiveWaitReadsNonBlank(input: seq<string>, cursor: nat, expected: string)
    requires cursor <= |input|
    ensures var w := Wait(Live, input, cursor, expected); w.received == Messages(input[cursor..w.cursor])
    decreases |input| - cursor
  {
    var r := LiveRead(input, cursor);
    if r.message.Err? {
      LiveWaitWithoutMessage(input, cursor, expected);
    } else {
      LiveWaitStep(input, cursor, r.cursor - 1, expected);
      LiveReadMessages(input, cursor);
      if r.message.value != expected {
        LiveWaitReadsNonBlank(input, r.cursor, expected);
        var w' := Wait(Live, input, r.cursor, expected);
        MessagesOfSplit(input, cursor, r.cursor, w'.cursor);
      }
    }
  }

  /** In live mode a wait that finds no match ends with the escaping
      exception exactly when a line was left and the last line is blank;
      when the input ends on a non-blank line it returns silently. */
  lemma {:induction false} LiveWaitEnd(input: seq<string>, cursor: nat, expected: string)
    requires cursor <= |input|
    ensures var w := Wait(Live, input, cursor, expected);
      w.end != Matched ==> (w.end == Aborted <==> cursor < |input| && IsBlank(input[|input| - 1]))
    decreases |input| - cursor
  {
    var r := LiveRead(input, cursor);
    if r.message.Ok? && r.message.value != expected {
      LiveWaitEnd(input, r.cursor, expected);
    }
  }

  /** In live mode, when only blank lines are left after the last message
      (a blank line at the end of standard input), the wait does not stop
      silently: the NoSuchElement exception escapes it. */
  lemma LiveWaitOnBlankTail(input: seq<string>, cursor: nat, expected: string)
    requires cursor < |input|
    requires forall j :: cursor <= j < |input| ==> IsBlank(input[j])
    ensures Wait(Live, input, cursor, expected) == WaitRun(Aborted, |input|, [])
  {
  }

  /** For instance a wait for "STOP" on "a" followed by a blank line. */
  lemma LiveWaitTrailingBlankExample()
    ensures Wait(Live, ["a", ""], 0, "STOP") == WaitRun(Aborted, 2, ["a"])
  {
    var input := ["a", ""];
    assert LiveRead(input, 0) == Read(Ok("a"), 1) by {
      TrimOfTrimmed("a");
      assert !IsBlank("a");
    }
    LiveWaitOnBlankTail(input, 1, "STOP");
  }

  /** The lines of a replay with blank lines before the lines that count. */
  const STOP_REPLAY: seq<string> := ["", "a", "", "b", "STOP"]

  /** Waiting for "STOP" in file mode reads all five lines verbatim, blank
      ones included, and stops after the last. */
  lemma FileWaitForStopExample()
    ensures Wait(File, STOP_REPLAY, 0, "STOP") == WaitRun(Matched, 5, STOP_REPLAY)
  {
  }

  /** Waiting for "STOP" in live mode on the same lines reads only "a", "b"
      and "STOP". */
  lemma LiveWaitForStopExample()
    ensures Wait(Live, STOP_REPLAY, 0, "STOP") == WaitRun(Matched, 5, ["a", "b", "STOP"])
  {
    var input := STOP_REPLAY;
    TrimOfTrimmed("a");
    TrimOfTrimmed("b");
    TrimOfTrimmed("STOP");
    assert !IsBlank(input[1]) && !IsBlank(input[3]) && !IsBlank(input[4]);
    LiveWaitStep(input, 4, 4, "STOP");
    LiveWaitStep(input, 2, 3, "STOP");
    LiveWaitStep(input, 0, 1, "STOP");
  }

  /** The envelope that addresses a message to every bot. */
  const BROADCAST_PREFIX := "bot all send "

  /** broadcastMessage's line: the prefix, then the message unchanged. */
  function BroadcastLine(message: string): (line: string)
    ensures |line| == |BROADCAST_PREFIX| + |message|
    ensures line[..|BROADCAST_PREFIX|] == BROADCAST_PREFIX
    ensures line[|BROADCAST_PREFIX|..] == message
  {
    BROADCAST_PREFIX + message
  }

  /** Different messages give different broadcast lines. */
  lemma BroadcastLineInjective(a: string, b: string)
    requires BroadcastLine(a) == BroadcastLine(b)
    ensures a == b
  {
  }

  lemma BroadcastExample()
    ensures BroadcastLine("move up") == "bot all send move up"
  {
  }

  /** The handler: a fixed mode, the lines of its source with a cursor, and
      the lines it has written to standard output. */
  class IOHandler {
    const mode: Mode
    const input: seq<string>
    var cursor: nat
    var output: seq<string>

    ghost predicate Valid()
      reads this
    {
      cursor <= |input|
    }

    /** IOHandler(): live mode on the lines of standard input. */
    constructor (stdin: seq<string>)
      ensures Valid()
      ensures mode.Live? && input == stdin && cursor == 0 && output == []
    {
      mode, input, cursor, output := Live, stdin, 0, [];
    }

    /** IOHandler(inputFile): file mode on the lines of an opened file. */
    constructor FromFile(lines: seq<string>)
      ensures Valid()
      ensures mode.File? && input == lines && cursor == 0 && output == []
    {
      mode, input, cursor, output := File, lines, 0, [];
    }

    /** getNextMessage. */
    method GetNextMessage() returns (message: Result<string, ReadError>)
      requires Valid()
      modifies this`cursor
      ensures Valid()
      ensures Read(message, cursor) == ReadNext(mode, input, old(cursor))
    {
      if mode.File? {
        message := GetNextMessageFromFile();
      } else {
        message := GetNextMessageFromInStream();
      }
    }

    /** getNextMessageFromFile: the next line, verbatim. */
    method GetNextMessageFromFile() returns (message: Result<string, ReadError>)
      requires Valid() && mode.File?
      modifies this`cursor
      ensures Valid()
      ensures Read(message, cursor) == FileRead(input, old(cursor))
    {
      if cursor < |input| {
        message := Ok(input[cursor]);
        cursor := cursor + 1;
      } else {
        message := Err(NoMoreInput);
      }
    }

    /** getNextMessageFromInStream: skip blank lines, return the first
      non-blank one trimmed. */
    method GetNextMessageFromInStream() returns (message: Result<string, ReadError>)
      requires Valid() && mode.Live?
      modifies this`cursor
      ensures Valid()
      ensures Read(message, cursor) == LiveRead(input, old(cursor))
    {
      if cursor < |input| {
        var line := "";
        while |line| == 0
          invariant old(cursor) <= cursor <= |input|
          invariant line == [] ==> forall j :: old(cursor) <= j < cursor ==> IsBlank(input[j])
          invariant line != [] ==> FirstNonBlank(input, old(cursor)) == Some(cursor - 1) && line == Trim(input[cursor - 1])
          decreases |input| - cursor
        {
          if cursor == |input| {
            return Err(NoSuchElement);
          }
          line := Trim(input[cursor]);
          cursor := cursor + 1;
        }
        message := Ok(line);
      } else {
        message := Err(NoMoreInput);
      }
    }

    /** waitForMessage: read messages until one equals `expected`; stop
      silently when the input runs out. `thrown` says that the
      NoSuchElement exception escaped the call. */
    method WaitForMessage(expected: string) returns (thrown: bool)
      requires Valid()
      modifies this`cursor
      ensures Valid()
      ensures var w := Wait(mode, input, old(cursor), expected);
        cursor == w.cursor && thrown == (w.end == Aborted)
    {
      ghost var w0 := Wait(mode, input, cursor, expected);
      var message: Option<string> := None;
      thrown := false;
      while message != Some(expected)
        invariant Valid()
        invariant message == Some(expected) ==> w0.end == Matched && w0.cursor == cursor
        invariant message != Some(expected) ==>
          var w := Wait(mode, input, cursor, expected); w0.end == w.end && w0.cursor == w.cursor
        decreases |input| - cursor
      {
        var next := GetNextMessage();
        match next
        case Err(NoSuchElement) =>
          thrown := true;
          return;
        case Err(NoMoreInput) =>
          break;
        case Ok(m) =>
          message := Some(m);
      }
    }

    /** sendMessage: write one line to standard output. */
    method SendMessage(message: string)
      modifies this`output
      ensures output == old(output) + [message]
      ensures cursor == old(cursor)
    {
      output := output + [message];
    }

    /** broadcastMessage: send the message in the all-bots envelope. */
    method BroadcastMessage(message: string)
      modifies this`output
      ensures output == old(output) + [BroadcastLine(message)]
      ensures cursor == old(cursor)
    {
      SendMessage(BroadcastLine(message));
    }
  }
}
