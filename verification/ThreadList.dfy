/** The reply that lists all live threads, written into a buffer that is sized beforehand. */
module ThreadList {
  import opened Numerals
  import opened ContinueThreads
  import opened RspFraming

  /** The strings with `delimiter` between them. */
  function Join(strings: seq<string>, delimiter: char): string {
    if strings == [] then ""
    else if |strings| == 1 then strings[0]
    else strings[0] + [delimiter] + Join(strings[1..], delimiter)
  }

  function TotalLength(strings: seq<string>): nat {
    if strings == [] then 0 else |strings[0]| + TotalLength(strings[1..])
  }

  /** Room for the strings and the delimiters between them is exactly what joining needs. */
  lemma {:induction false} JoinLength(strings: seq<string>, delimiter: char)
    requires strings != []
    ensures |Join(strings, delimiter)| == TotalLength(strings) + |strings| - 1
  {
    if |strings| > 1 { JoinLength(strings[1..], delimiter); }
  }

  lemma {:induction false} JoinLast(strings: seq<string>, delimiter: char, s: string)
    ensures Join(strings + [s], delimiter) ==
      if strings == [] then s else Join(strings, delimiter) + [delimiter] + s
  {
    if strings == [] {
      assert strings + [s] == [s];
    } else {
      JoinLast(strings[1..], delimiter, s);
      assert (strings + [s])[1..] == strings[1..] + [s];
      if |strings| == 1 { assert strings[1..] == []; }
    }
  }

  lemma {:induction false} JoinPrefixFits(strings: seq<string>, delimiter: char, i: nat)
    requires 0 < i <= |strings|
    ensures |Join(strings[..i], delimiter)| + (if i < |strings| then 1 + |strings[i]| else 0)
         <= |Join(strings, delimiter)|
    decreases |strings| - i
  {
    if i < |strings| {
      assert strings[..i + 1] == strings[..i] + [strings[i]];
      JoinLast(strings[..i], delimiter, strings[i]);
      JoinPrefixFits(strings, delimiter, i + 1);
    } else {
      assert strings[..i] == strings;
    }
  }

  /** The joined strings written so far: a delimiter follows unless all are there. */
  function Written(strings: seq<string>, delimiter: char, i: nat): string
    requires i <= |strings|
  {
    Join(strings[..i], delimiter) + if 0 < i < |strings| then [delimiter] else []
  }

  lemma WrittenStep(strings: seq<string>, delimiter: char, i: nat)
    requires i < |strings|
    ensures Written(strings, delimiter, i + 1) ==
      Written(strings, delimiter, i) + strings[i] + if i + 1 < |strings| then [delimiter] else []
    ensures |Written(strings, delimiter, i + 1)| <= |Join(strings, delimiter)|
  {
    assert strings[..i + 1] == strings[..i] + [strings[i]];
    JoinLast(strings[..i], delimiter, strings[i]);
    JoinPrefixFits(strings, delimiter, i + 1);
  }

  lemma WrittenAll(strings: seq<string>, delimiter: char)
    ensures Written(strings, delimiter, |strings|) == Join(strings, delimiter)
  {
    assert strings[..|strings|] == strings;
  }

  /** Writes the joined strings into a buffer from `at`; every write is within the buffer. */
  method JoinStrings(strings: seq<string>, delimiter: char, buffer: array<char>, at: nat)
    requires strings != [] && at + |Join(strings, delimiter)| <= buffer.Length
    modifies buffer
    ensures buffer[at..at + |Join(strings, delimiter)|] == Join(strings, delimiter)
    ensures buffer[..at] == old(buffer[..at])
  {
    var index := at;
    for i := 0 to |strings|
      invariant at <= index <= buffer.Length
      invariant buffer[at..index] == Written(strings, delimiter, i)
      invariant buffer[..at] == old(buffer[..at])
    {
      WrittenStep(strings, delimiter, i);
      index := Copy(strings[i], buffer, at, index);
      if i + 1 < |strings| { index := Copy([delimiter], buffer, at, index); }
    }
    WrittenAll(strings, delimiter);
  }

  /** Copies `s` to `index`, after the part that starts at `at`. */
  method Copy(s: string, buffer: array<char>, ghost at: nat, index: nat) returns (next: nat)
    requires at <= index && index + |s| <= buffer.Length
    modifies buffer
    ensures next == index + |s| && buffer[at..next] == old(buffer[at..index]) + s
    ensures buffer[..at] == old(buffer[..at])
  {
    for k := 0 to |s|
      invariant buffer[index..index + k] == s[..k]
      invariant buffer[..index] == old(buffer[..index])
    {
      buffer[index + k] := s[k];
    }
    next := index + |s|;
    assert buffer[at..next] == buffer[..index][at..] + buffer[index..next];
    assert buffer[..at] == buffer[..index][..at];
  }

  function ThreadNames(threads: seq<Thread>): seq<string> {
    seq(|threads|, i requires 0 <= i < |threads| => Print(threads[i].id, Sixteen))
  }

  /** Builds the thread list in a buffer sized beforehand. */
  method ThreadInfo(threads: seq<Thread>) returns (reply: string)
    requires threads != []
    ensures reply == "m" + Join(ThreadNames(threads), ',')
  {
    var names := ThreadNames(threads);
    var size := 0;
    for i := 0 to |names|
      invariant size + TotalLength(names[i..]) == TotalLength(names)
    {
      size := size + |names[i]|;
      assert names[i..][1..] == names[i + 1..];
    }
    size := size + |names|;
    JoinLength(names, ',');
    var buffer := new char[size];
    buffer[0] := 'm';
    JoinStrings(names, ',', buffer, 1);
    reply := buffer[..];
    assert buffer[..] == buffer[..1] + buffer[1..size];
  }

  lemma {:induction false} JoinIsPlain(strings: seq<string>)
    requires forall i | 0 <= i < |strings| :: Plain(strings[i])
    ensures Plain(Join(strings, ','))
  {
    if |strings| > 1 { JoinIsPlain(strings[1..]); }
  }

  lemma ThreadListIsPlain(threads: seq<Thread>)
    ensures Plain("m" + Join(ThreadNames(threads), ','))
  {
    var names := ThreadNames(threads);
    forall i | 0 <= i < |names| ensures Plain(names[i]) {}
    JoinIsPlain(names);
  }

  /** A list of up to 240 threads always fits; more may not. */
  lemma ShortThreadListFits(threads: seq<Thread>)
    requires 0 < |threads| <= 240
    ensures Fits("m" + Join(ThreadNames(threads), ','))
  {
    var names := ThreadNames(threads);
    forall i | 0 <= i < |names| ensures |names[i]| <= 16 { Print64Length(threads[i].id); }
    TotalLengthBelow(names);
    JoinLength(names, ',');
  }

  lemma {:induction false} TotalLengthBelow(strings: seq<string>)
    requires forall i | 0 <= i < |strings| :: |strings[i]| <= 16
    ensures TotalLength(strings) <= 16 * |strings|
  {
    if strings != [] { TotalLengthBelow(strings[1..]); }
  }
}
