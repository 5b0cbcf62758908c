/** The ring of recent log lines, and its dump as one text. */
module LogRing {

  const MAX_LINES: nat := 2048
  const MAX_LINE: nat := 512
  const MAX_MESSAGE: nat := 472
  const MAX_DISK: nat := 256 * 1024

  // --- a plain history ---

  datatype Event = Logged(line: string) | Cleared

  /** All lines since the log was last cleared. */
  function History(events: seq<Event>): seq<string> {
    if events == [] then []
    else
      match events[|events| - 1]
      case Cleared => []
      case Logged(line) => History(events[..|events| - 1]) + [line]
  }

  /** The last n of the lines, or all if there are fewer. */
  function Last(lines: seq<string>, n: nat): seq<string> {
    if |lines| <= n then lines else lines[|lines| - n..]
  }

  // What one event does to the lines that are kept.
  function Kept(lines: seq<string>, e: Event): seq<string> {
    match e
    case Cleared => []
    case Logged(line) => Last(lines + [line], MAX_LINES)
  }

  /** Keeping the end at each step keeps the end of the whole history. */
  lemma RefinesHistory(events: seq<Event>, e: Event)
    ensures Kept(Last(History(events), MAX_LINES), e) == Last(History(events + [e]), MAX_LINES)
  {
    assert (events + [e])[..|events|] == events;
  }

  // --- lines and dumps ---

  /** Line breaks at the end are taken off. */
  function Stripped(s: string): (r: string)
    ensures r <= s && (r != "" ==> r[|r| - 1] != '\n' && r[|r| - 1] != '\r')
  {
    if s != "" && (s[|s| - 1] == '\n' || s[|s| - 1] == '\r') then Stripped(s[..|s| - 1]) else s
  }

  function Cut(s: string, size: nat): (r: string)
    requires size > 0
    ensures r <= s && |r| < size
  {
    if |s| < size then s else s[..size - 1]
  }

  /** The message as it is logged; an empty one is not. */
  function Message(text: string): string {
    Stripped(Cut(text, MAX_MESSAGE))
  }

  function FullLine(time: string, text: string): string {
    Cut("[" + time + "] " + Message(text), MAX_LINE)
  }

  function Dump(lines: seq<string>): string {
    if lines == [] then "" else Dump(lines[..|lines| - 1]) + lines[|lines| - 1] + "\n"
  }

  // --- the ring as a sequence ---

  /** Where the i-th oldest line is. */
  function Slot(head: nat, count: nat, i: nat): (s: nat)
    requires i < count <= MAX_LINES && head < MAX_LINES
    ensures s < MAX_LINES
  {
    (head - count + i + MAX_LINES) % MAX_LINES
  }

  function Window(buffer: seq<string>, head: nat, count: nat): (r: seq<string>)
    requires |buffer| == MAX_LINES && head < MAX_LINES && count <= MAX_LINES
    ensures |r| == count && forall i :: 0 <= i < count ==> r[i] == buffer[Slot(head, count, i)]
  {
    seq(count, i requires 0 <= i < count => buffer[Slot(head, count, i)])
  }

  /** Where the older lines are after one more was stored. */
  lemma Turn(head: nat, count: nat, i: nat)
    requires head < MAX_LINES && count <= MAX_LINES
    requires i < if count < MAX_LINES then count else MAX_LINES - 1
    ensures var newHead, newCount := (head + 1) % MAX_LINES, if count < MAX_LINES then count + 1 else count;
      var was := if count < MAX_LINES then i else i + 1;
      Slot(newHead, newCount, i) == Slot(head, count, was) != head
  {
  }

  /** Storing at the head is appending to the lines, the oldest giving way. */
  lemma Pushed(buffer: seq<string>, head: nat, count: nat, line: string)
    requires |buffer| == MAX_LINES && head < MAX_LINES && count <= MAX_LINES
    ensures Window(buffer[head := line], (head + 1) % MAX_LINES, if count < MAX_LINES then count + 1 else count)
         == Kept(Window(buffer, head, count), Logged(line))
  {
    hide Slot, Window;
    var newHead, newCount := (head + 1) % MAX_LINES, if count < MAX_LINES then count + 1 else count;
    var now := Window(buffer[head := line], newHead, newCount);
    var kept := Kept(Window(buffer, head, count), Logged(line));
    forall i | 0 <= i < newCount
      ensures now[i] == kept[i]
    {
      if i < newCount - 1 {
        Turn(head, count, i);
      } else {
        LastSlot(head, newCount);
      }
    }
  }

  lemma LastSlot(head: nat, count: nat)
    requires 0 < count <= MAX_LINES && head < MAX_LINES
    ensures Slot((head + 1) % MAX_LINES, count, count - 1) == head
  {
  }

  // --- the program ---

  class Ring {
    const buffer: array<string>
    var head: nat
    var count: nat
    // Everything that was logged or cleared so far.
    ghost var events: seq<Event>

    ghost predicate Shaped()
      reads this
    {
      buffer.Length == MAX_LINES && head < MAX_LINES && count <= MAX_LINES
    }

    /** The lines in the ring, oldest first. */
    ghost function Lines(): (r: seq<string>)
      requires Shaped()
      reads this, buffer
    {
      Window(buffer[..], head, count)
    }

    /** Whatever happened so far, the ring has the last lines of the history. */
    ghost predicate Valid()
      reads this, buffer
    {
      Shaped() && Lines() == Last(History(events), MAX_LINES)
    }

    constructor ()
      ensures Valid() && events == [] && fresh(buffer)
    {
      buffer := new string[MAX_LINES];
      head, count := 0, 0;
      events := [];
    }

    /** install_log_clear. */
    method Clear()
      requires Valid()
      modifies this`head, this`count, this`events
      ensures Valid() && events == old(events) + [Cleared] && Lines() == []
    {
      RefinesHistory(events, Cleared);
      events := events + [Cleared];
      head, count := 0, 0;
    }

    method Store(line: string)
      requires Valid()
      modifies this`head, this`count, this`events, buffer
      ensures Valid() && events == old(events) + [Logged(line)]
    {
      hide Window, Kept, History, Last;
      Pushed(buffer[..], head, count, line);
      RefinesHistory(events, Logged(line));
      events := events + [Logged(line)];
      buffer[head] := line;
      head := (head + 1) % MAX_LINES;
      if count < MAX_LINES {
        count := count + 1;
      }
    }

    /** install_log, given the formatted text and the time. */
    method Log(time: string, text: string)
      requires Valid()
      modifies this`head, this`count, this`events, buffer
      ensures Valid()
      ensures Message(text) == "" ==> events == old(events) && Lines() == old(Lines())
      ensures Message(text) != "" ==> events == old(events) + [Logged(FullLine(time, text))]
    {
      hide Window, History, Last;
      var message := if |text| < MAX_MESSAGE then text else text[..MAX_MESSAGE - 1];
      ghost var whole := message;
      while |message| > 0 && (message[|message| - 1] == '\n' || message[|message| - 1] == '\r')
        invariant Stripped(message) == Stripped(whole)
        decreases |message|
      {
        message := message[..|message| - 1];
      }
      if |message| == 0 {
        return;
      }
      Store(Cut("[" + time + "] " + message, MAX_LINE));
    }

    method DumpLength() returns (total: nat)
      requires Valid()
      ensures total == |Dump(Lines())|
    {
      hide Slot, Window, History, Last;
      ghost var lines := Lines();
      total := 0;
      var i := 0;
      while i < count
        invariant i <= count && total == |Dump(lines[..i])|
      {
        assert lines[..i + 1][..i] == lines[..i];
        total := total + |buffer[Slot(head, count, i)]| + 1;
        i := i + 1;
      }
      assert lines[..i] == lines;
    }

    method AppendLine(text: array<char>, start: nat, line: string) returns (pos: nat)
      requires start + |line| + 1 <= text.Length
      modifies text
      ensures pos == start + |line| + 1 && text[..pos] == old(text[..start]) + line + "\n"
    {
      Copy(text, start, line);
      pos := start + |line|;
      text[pos] := '\n';
      pos := pos + 1;
    }

    /** install_log_get_text: a buffer of exactly the needed length, filled line by line. */
    method GetText(disk: string) returns (text: array<char>)
      requires Valid()
      ensures fresh(text)
      ensures var lines := Last(History(events), MAX_LINES);
        text[..] == if lines != [] then Dump(lines) else if disk != "" then Tail(disk) else "No logs recorded yet.\n"
    {
      hide Slot, Tail, Window, History, Last;
      if count == 0 {
        var fallback := if disk != "" then Tail(disk) else "No logs recorded yet.\n";
        text := new char[|fallback|](i requires 0 <= i < |fallback| => fallback[i]);
        assert text[..] == fallback;
        return;
      }
      ghost var lines := Lines();
      var total := DumpLength();
      text := new char[total];
      var pos, i := 0, 0;
      while i < count
        invariant i <= count && pos == |Dump(lines[..i])| && pos <= total == |Dump(lines)|
        invariant text[..pos] == Dump(lines[..i])
      {
        DumpNext(lines, i);
        DumpGrows(lines, i + 1);
        pos := AppendLine(text, pos, buffer[Slot(head, count, i)]);
        i := i + 1;
      }
      assert lines[..i] == lines;
      assert text[..pos] == text[..];
    }
  }

  lemma DumpNext(lines: seq<string>, i: nat)
    requires i < |lines|
    ensures Dump(lines[..i + 1]) == Dump(lines[..i]) + lines[i] + "\n"
  {
    assert lines[..i + 1][..i] == lines[..i];
  }

  /** The end of the log file, as much as is read of it. */
  function Tail(disk: string): string {
    if |disk| <= MAX_DISK then disk else disk[|disk| - MAX_DISK..]
  }

  method Copy(text: array<char>, pos: nat, line: string)
    requires pos + |line| <= text.Length
    modifies text
    ensures text[..pos + |line|] == old(text[..pos]) + line
  {
    var k := 0;
    while k < |line|
      invariant k <= |line| && text[..pos + k] == old(text[..pos]) + line[..k]
    {
      text[pos + k] := line[k];
      k := k + 1;
    }
  }

  lemma {:induction false} DumpGrows(lines: seq<string>, n: nat)
    requires n <= |lines|
    ensures |Dump(lines[..n])| <= |Dump(lines)|
  {
    if n == |lines| {
      assert lines[..n] == lines;
    } else {
      DumpGrows(lines[..|lines| - 1], n);
      assert lines[..|lines| - 1][..n] == lines[..n];
    }
  }

  // --- what the lines look like ---

  predicate Breaks(s: string) {
    forall i :: 0 <= i < |s| ==> s[i] == '\n' || s[i] == '\r'
  }

  lemma {:induction false} BreaksDropped(s: string, breaks: string)
    requires Breaks(breaks) && (s == "" || (s[|s| - 1] != '\n' && s[|s| - 1] != '\r'))
    ensures Stripped(s + breaks) == s
  {
    if breaks == "" {
      assert s + breaks == s;
    } else {
      var n := |breaks| - 1;
      BreaksDropped(s, breaks[..n]);
      assert (s + breaks)[..|s| + n] == s + breaks[..n];
    }
  }

  /** A message of at most 471 characters with breaks is logged without these, behind its time in brackets, all cut to
    * 511 characters; of a longer one its first 471 are. */
  lemma LineIs(time: string, s: string, breaks: string)
    requires Breaks(breaks) && (s == "" || (s[|s| - 1] != '\n' && s[|s| - 1] != '\r'))
    ensures |s + breaks| <= 471 ==> Message(s + breaks) == s
    ensures |s + breaks| <= 471 && |time| + 3 + |s| <= 511 ==> FullLine(time, s + breaks) == "[" + time + "] " + s
    ensures |s + breaks| <= 471 && |time| + 3 + |s| > 511 ==>
      FullLine(time, s + breaks) == ("[" + time + "] " + s)[..511]
    ensures forall text: string :: |text| > 471 ==> Message(text) == Message(text[..471])
  {
    BreaksDropped(s, breaks);
  }

  lemma DumpSnoc(lines: seq<string>, line: string)
    ensures Dump(lines + [line]) == Dump(lines) + (line + "\n")
  {
    assert (lines + [line])[..|lines|] == lines;
  }

  /** A dump is its lines in order, with a line break behind each. */
  lemma {:induction false} DumpJoin(a: seq<string>, b: seq<string>)
    ensures Dump(a + b) == Dump(a) + Dump(b)
    decreases |b|, 0
  {
    if b == [] {
      assert a + b == a;
    } else {
      DumpLast(a, b[..|b| - 1], b[|b| - 1]);
      assert b[..|b| - 1] + [b[|b| - 1]] == b;
    }
  }

  lemma {:induction false} DumpLast(a: seq<string>, c: seq<string>, line: string)
    ensures Dump(a + (c + [line])) == Dump(a) + Dump(c + [line])
    decreases |c|, 1
  {
    hide Dump;
    DumpJoin(a, c);
    DumpSnoc(c, line);
    DumpSnoc(a + c, line);
    assert a + (c + [line]) == a + c + [line];
  }

  lemma DumpOne(line: string)
    ensures Dump([]) == "" && Dump([line]) == line + "\n"
  {
    assert [line][..0] == [];
  }

  /** Of the file no more than the last 262144 characters are read. */
  lemma TailIs(before: string, last: string)
    requires |last| <= 262144
    ensures Tail(last) == last
    ensures |last| == 262144 ==> Tail(before + last) == last
  {
  }
}
