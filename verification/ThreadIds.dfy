/** Thread ids of the GDB remote serial protocol: "p<pid>.<tid>" or "<tid>", in base 16. */
module ThreadIds {
  import opened Options
  import opened Numerals

  datatype ThreadId = ThreadId(hasPid: bool, pid: int, tid: int)

  /** The first position at or after `from` that holds `c`, or the length of `s`. */
  function Find(s: string, c: char, from: nat): (i: nat)
    requires from <= |s|
    ensures from <= i <= |s| && (i < |s| ==> s[i] == c) && c !in s[from..i]
    decreases |s| - from
  {
    if from == |s| || s[from] == c then from
    else
      assert forall j | from < j <= |s| :: s[from..j] == [s[from]] + s[from + 1..j];
      Find(s, c, from + 1)
  }

  /** What ParseThreadId computes.  Without a '.', the code cuts the pid at an index that
      was never set: `stale` is the number of characters it happens to take. */
  function ThreadIdOf(bytes: string, stale: nat): Option<ThreadId> {
    if bytes == "" then None
    else if bytes[0] != 'p' then
      var tid := ParseInt64(bytes);
      if tid.None? then None else Some(ThreadId(false, 0, tid.value))
    else
      var dot := Find(bytes, '.', 1);
      if dot == |bytes| then
        var pid := ParseInt64(bytes[1..if 1 + stale < |bytes| then 1 + stale else |bytes|]);
        if pid.None? then None else Some(ThreadId(true, pid.value, -1))
      else
        var pid, tid := ParseInt64(bytes[1..dot]), ParseInt64(bytes[dot + 1..]);
        if pid.None? || tid.None? then None else Some(ThreadId(true, pid.value, tid.value))
  }

  method ParseThreadId(bytes: string, stale: nat) returns (r: Option<ThreadId>)
    ensures r == ThreadIdOf(bytes, stale)
  {
    if bytes == "" { return None; }
    if bytes[0] != 'p' {
      var tid := ParseInt64(bytes);
      return if tid.None? then None else Some(ThreadId(false, 0, tid.value));
    }
    var foundDot, dot, i := false, 0, 1;
    while i < |bytes| && !foundDot
      invariant 1 <= i <= |bytes| && !foundDot ==> Find(bytes, '.', 1) == Find(bytes, '.', i)
      invariant 1 <= i <= |bytes|
      invariant foundDot ==> dot < |bytes| && dot == Find(bytes, '.', 1)
      decreases |bytes| - i, !foundDot
    {
      if bytes[i] == '.' {
        foundDot, dot := true, i;
      } else {
        i := i + 1;
      }
    }
    if !foundDot {
      var pid := ParseInt64(bytes[1..if 1 + stale < |bytes| then 1 + stale else |bytes|]);
      return if pid.None? then None else Some(ThreadId(true, pid.value, -1));
    }
    var pid := ParseInt64(bytes[1..dot]);
    if pid.None? { return None; }
    var tid := ParseInt64(bytes[dot + 1..]);
    return if tid.None? then None else Some(ThreadId(true, pid.value, tid.value));
  }

  function EncodeThreadId(pid: nat, tid: nat): string {
    "p" + Print(pid, Sixteen) + "." + Print(tid, Sixteen)
  }

  /** In a + c + b, with no c in a, the search from the start of a finds that c. */
  lemma {:induction false} FindIn(s: string, c: char, from: nat, at: nat)
    requires from <= at < |s| && s[at] == c && c !in s[from..at]
    ensures Find(s, c, from) == at
    decreases at - from
  {
    if from < at {
      assert s[from..at] == [s[from]] + s[from + 1..at];
      FindIn(s, c, from + 1, at);
    }
  }

  lemma FindInSuffix(s: string, c: char, from: nat)
    requires from <= |s|
    ensures Find(s[from..], c, 0) == Find(s, c, from) - from
  {
    var i := Find(s, c, from);
    assert s[from..][0..i - from] == s[from..i];
    if i < |s| {
      FindIn(s[from..], c, 0, i - from);
    } else {
      FindNone(s[from..], c, 0);
    }
  }

  lemma {:induction false} FindNone(s: string, c: char, from: nat)
    requires from <= |s| && c !in s[from..]
    ensures Find(s, c, from) == |s|
    decreases |s| - from
  {
    if from < |s| {
      assert s[from..] == [s[from]] + s[from + 1..];
      FindNone(s, c, from + 1);
    }
  }

  lemma PrintHasNo(n: nat, c: char)
    requires !IsUpper(c)
    ensures c !in Print(n, Sixteen)
  {
  }

  /** A printed pid and tid are read back, exactly when both fit a signed 64-bit number. */
  lemma ThreadIdRoundTrip(pid: nat, tid: nat, stale: nat)
    ensures ThreadIdOf(EncodeThreadId(pid, tid), stale)
         == if pid < INT64_LIMIT && tid < INT64_LIMIT then Some(ThreadId(true, pid, tid)) else None
  {
    var s, a, b := EncodeThreadId(pid, tid), Print(pid, Sixteen), Print(tid, Sixteen);
    PairOfNumerals(a, b, stale);
    PrintParse(pid);
    PrintParse(tid);
    PrintHasNo(pid, '.');
  }

  /** Splitting "p" a "." b at its first dot. */
  lemma PairOfNumerals(a: string, b: string, stale: nat)
    requires '.' !in a
    ensures var pid, tid := ParseInt64(a), ParseInt64(b);
      ThreadIdOf("p" + a + "." + b, stale)
        == if pid.Some? && tid.Some? then Some(ThreadId(true, pid.value, tid.value)) else None
  {
    var s := "p" + a + "." + b;
    assert s[1..1 + |a|] == a && s[1 + |a| + 1..] == b;
    FindIn(s, '.', 1, 1 + |a|);
  }

  // ----- The form without a dot -----

  /** A number could start here: a digit, or a sign and a digit. */
  predicate StartsNumeral(s: string) {
    s != "" && if s[0] == '-' then |s| > 1 && DigitValue(s[1]).Some? else DigitValue(s[0]).Some?
  }

  lemma ParsedStartsNumeral(s: string)
    requires ParseInt64(s).Some?
    ensures StartsNumeral(s)
  {
    DigitsStart(if s[0] == '-' then s[1..] else s);
  }

  lemma OneDigitParses(c: char)
    requires DigitValue(c).Some?
    ensures ParseInt64([c]).Some? && ParseInt64("-" + [c]).Some?
  {
    assert [c][..0] == "" && ("-" + [c])[1..] == [c];
    assert Digits([c], Sixteen) == DigitValue(c);
  }

  /** What is cut from "p" and the rest when the index happens to leave `stale` characters. */
  lemma NoDot(rest: string, stale: nat)
    requires '.' !in rest
    ensures ThreadIdOf("p" + rest, stale) ==
      var pid := ParseInt64(rest[..if stale < |rest| then stale else |rest|]);
      if pid.None? then None else Some(ThreadId(true, pid.value, -1))
  {
    var b := "p" + rest;
    assert b[1..] == rest;
    FindNone(b, '.', 1);
    var n := if stale < |rest| then stale else |rest|;
    assert b[1..1 + n] == rest[..n];
  }

  /** Whatever the index, nothing is read where no number starts. */
  lemma NoNumeral(rest: string, stale: nat)
    requires '.' !in rest && !StartsNumeral(rest)
    ensures ThreadIdOf("p" + rest, stale) == None
  {
    NoDot(rest, stale);
    var part := rest[..if stale < |rest| then stale else |rest|];
    if ParseInt64(part).Some? { ParsedStartsNumeral(part); }
  }

  /** Where one starts, two values of the index give two results. */
  lemma NumeralIsCut(rest: string) returns (m: nat)
    requires '.' !in rest && StartsNumeral(rest)
    ensures ThreadIdOf("p" + rest, m) != ThreadIdOf("p" + rest, 0)
  {
    NoDot(rest, 0);
    if rest[0] == '-' {
      m := 2;
      OneDigitParses(rest[1]);
      assert rest[..2] == "-" + [rest[1]];
    } else {
      m := 1;
      OneDigitParses(rest[0]);
      assert rest[..1] == [rest[0]];
    }
    NoDot(rest, m);
  }

  /** The bytes alone determine the result if and only if there is a dot, or no process part, or
      no number for the process. */
  lemma DeterminedIff(bytes: string)
    ensures (forall m: nat, n: nat :: ThreadIdOf(bytes, m) == ThreadIdOf(bytes, n)) <==>
      bytes == "" || bytes[0] != 'p' || '.' in bytes[1..] || !StartsNumeral(bytes[1..])
  {
    if bytes != "" && bytes[0] == 'p' && '.' !in bytes[1..] {
      var rest := bytes[1..];
      assert bytes == "p" + rest;
      if StartsNumeral(rest) {
        var m := NumeralIsCut(rest);
      } else {
        forall m: nat ensures ThreadIdOf(bytes, m) == None { NoNumeral(rest, m); }
      }
    } else if bytes != "" && bytes[0] == 'p' {
      assert bytes[1..|bytes|] == bytes[1..];
    }
  }

  /** For example "p12", documented to mean all threads of process 12. */
  lemma NoDotDependsOnStaleIndex()
    ensures ThreadIdOf("p12", 1) == Some(ThreadId(true, 0x1, -1))
    ensures ThreadIdOf("p12", 2) == Some(ThreadId(true, 0x12, -1))
  {
    assert Find("p12", '.', 1) == 3;
    assert "p12"[1..2] == "1" && "p12"[1..3] == "12";
    assert Digits("1", Sixteen) == Some(1) by { assert "1"[..0] == ""; }
    assert Digits("12", Sixteen) == Some(0x12) by { assert "12"[..1] == "1"; }
  }
}
