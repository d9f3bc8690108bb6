/** Packet framing of the GDB remote serial protocol: '$' payload '#' checksum, with '}' as
    the escape character.  A character stands for a byte. */
module RspFraming {
  import opened Options
  import opened Numerals

  const ESCAPE := '}'

  /** The number of consecutive escape characters that end right before position `i`. */
  function EscapeRun(p: string, i: nat): nat
    requires i <= |p|
  {
    if i == 0 || p[i - 1] != ESCAPE then 0 else 1 + EscapeRun(p, i - 1)
  }

  /** `val` stands at `i` and is preceded by an even run of escapes. */
  predicate UnescapedAt(p: string, val: char, i: nat) {
    i < |p| && p[i] == val && val != ESCAPE && EscapeRun(p, i) % 2 == 0
  }

  predicate FirstAt(p: string, val: char, i: nat) {
    UnescapedAt(p, val, i) && forall j | 0 <= j < i :: !UnescapedAt(p, val, j)
  }

  /** The string holds no unescaped `val` and does not end inside an escape. */
  predicate Clean(s: string, val: char) {
    EscapeRun(s, |s|) % 2 == 0 && forall i | 0 <= i < |s| :: !UnescapedAt(s, val, i)
  }

  /** Text that may be framed as it is. */
  predicate Plain(s: string) {
    forall i | 0 <= i < |s| :: s[i] != '#' && s[i] != ESCAPE
  }

  lemma PlainIsClean(s: string)
    requires Plain(s)
    ensures Clean(s, '#')
  {
  }

  function Checksum(s: string): (r: nat)
    ensures r < 256
  {
    if s == "" then 0 else (Checksum(s[..|s| - 1]) + s[|s| - 1] as int) % 256
  }

  function SumOf(s: string): nat {
    if s == "" then 0 else s[0] as int + SumOf(s[1..])
  }

  lemma {:induction false} SumOfAppend(s: string, c: char)
    ensures SumOf(s + [c]) == SumOf(s) + c as int
  {
    if s == "" {
      assert (s + [c])[1..] == "";
    } else {
      SumOfAppend(s[1..], c);
      assert (s + [c])[1..] == s[1..] + [c];
    }
  }

  /** The checksum, kept in one byte as the characters come, is the sum of all of them modulo 256. */
  lemma {:induction false} ChecksumIsSum(s: string)
    ensures Checksum(s) == SumOf(s) % 256
  {
    if s != "" {
      var n := |s| - 1;
      ChecksumIsSum(s[..n]);
      SumOfAppend(s[..n], s[n]);
      assert s[..n] + [s[n]] == s;
    }
  }

  /** PostWriteTask: the bytes put on the wire for `data`. */
  function Frame(notify: bool, data: string): string {
    [if notify then '%' else '$'] + data + "#" + EncodeByte(Checksum(data))
  }

  /** The shape of a packet that carries `data`. */
  predicate Carries(packet: string, prefix: string, data: string, sum: string) {
    && packet == prefix + "$" + data + "#" + sum
    && Clean(prefix, '$') && Clean(data, '#')
    && |sum| == 2 && DecodeByte(sum) == Some(Checksum(data))
  }

  /** The payload of a packet, if it has that shape. */
  ghost function Payload(packet: string): Option<string> {
    if exists prefix, data, sum :: Carries(packet, prefix, data, sum) then
      var prefix, data, sum :| Carries(packet, prefix, data, sum);
      Some(data)
    else None
  }

  // ----- Facts about escapes -----

  lemma {:induction false} RunOfPrefix(p: string, q: string, i: nat)
    requires i <= |p|
    ensures EscapeRun(p + q, i) == EscapeRun(p, i)
  {
    if i > 0 && p[i - 1] == ESCAPE { RunOfPrefix(p, q, i - 1); }
  }

  /** After a string that does not end in an escape run, runs start afresh (mod 2). */
  lemma {:induction false} RunOfSuffix(p: string, q: string, i: nat)
    requires i <= |q| && EscapeRun(p, |p|) % 2 == 0
    ensures EscapeRun(p + q, |p| + i) % 2 == EscapeRun(q, i) % 2
    decreases i
  {
    if i == 0 {
      RunOfPrefix(p, q, |p|);
    } else if q[i - 1] == ESCAPE {
      RunOfSuffix(p, q, i - 1);
    }
  }

  lemma FirstUnique(p: string, val: char, i: nat, j: nat)
    requires FirstAt(p, val, i) && FirstAt(p, val, j)
    ensures i == j
  {
  }

  /** In prefix + mark + rest, with a clean prefix, the mark is the first unescaped one. */
  lemma FirstAfterClean(prefix: string, mark: char, rest: string)
    requires Clean(prefix, mark) && mark != ESCAPE
    ensures FirstAt(prefix + [mark] + rest, mark, |prefix|)
  {
    var p := prefix + [mark] + rest;
    assert p == prefix + ([mark] + rest);
    RunOfPrefix(prefix, [mark] + rest, |prefix|);
    forall j | 0 <= j < |prefix| ensures !UnescapedAt(p, mark, j) {
      RunOfPrefix(prefix, [mark] + rest, j);
      assert !UnescapedAt(prefix, mark, j);
    }
  }

  /** Conversely, what precedes the first unescaped mark is clean. */
  lemma CleanBeforeFirst(p: string, mark: char, i: nat)
    requires FirstAt(p, mark, i)
    ensures Clean(p[..i], mark) && p == p[..i] + [mark] + p[i + 1..]
  {
    assert p == p[..i] + p[i..];
    forall j | 0 <= j <= i ensures EscapeRun(p, j) == EscapeRun(p[..i], j) { RunOfPrefix(p[..i], p[i..], j); }
    forall j | 0 <= j < i ensures !UnescapedAt(p[..i], mark, j) { assert !UnescapedAt(p, mark, j); }
  }

  /** A leading '$' does not disturb the scan for '#'. */
  lemma CleanWithDollar(data: string)
    ensures Clean("$" + data, '#') <==> Clean(data, '#')
  {
    forall i | 0 <= i <= |data| ensures EscapeRun("$" + data, 1 + i) % 2 == EscapeRun(data, i) % 2 {
      RunOfSuffix("$", data, i);
    }
    if Clean(data, '#') {
      forall i | 0 <= i < |"$" + data| ensures !UnescapedAt("$" + data, '#', i) {
        if i > 0 { assert !UnescapedAt(data, '#', i - 1); }
      }
    }
    if Clean("$" + data, '#') {
      forall i | 0 <= i < |data| ensures !UnescapedAt(data, '#', i) {
        assert !UnescapedAt("$" + data, '#', 1 + i);
      }
    }
  }

  /** The scan positions of a well-shaped packet. */
  lemma CarriesPositions(packet: string, prefix: string, data: string, sum: string)
    requires Carries(packet, prefix, data, sum)
    ensures FirstAt(packet, '$', |prefix|)
    ensures |packet[|prefix|..]| >= 4 && FirstAt(packet[|prefix|..], '#', 1 + |data|)
  {
    assert packet == prefix + ['$'] + (data + "#" + sum);
    FirstAfterClean(prefix, '$', data + "#" + sum);
    CleanWithDollar(data);
    assert packet[|prefix|..] == ("$" + data) + ['#'] + sum;
    FirstAfterClean("$" + data, '#', sum);
  }

  /** A packet carries at most one payload. */
  lemma PayloadUnique(packet: string, p1: string, d1: string, s1: string, p2: string, d2: string, s2: string)
    requires Carries(packet, p1, d1, s1) && Carries(packet, p2, d2, s2)
    ensures p1 == p2 && d1 == d2 && s1 == s2
  {
    CarriesPositions(packet, p1, d1, s1);
    CarriesPositions(packet, p2, d2, s2);
    assert p1 == packet[..|p1|] && p2 == packet[..|p2|];
    assert d1 == packet[|p1| + 1..|p1| + 1 + |d1|] && d2 == packet[|p2| + 1..|p2| + 1 + |d2|];
    assert s1 == packet[|packet| - 2..] && s2 == packet[|packet| - 2..];
  }

  /** Round trip: the frame of a clean payload, after any clean noise, carries that payload. */
  lemma FrameRoundTrip(noise: string, data: string)
    requires Clean(noise, '$') && Clean(data, '#')
    ensures Payload(noise + Frame(false, data)) == Some(data)
  {
    var packet, sum := noise + Frame(false, data), EncodeByte(Checksum(data));
    ByteRoundTrip(Checksum(data));
    assert packet == noise + "$" + data + "#" + sum;
    assert Carries(packet, noise, data, sum);
    var p, d, s :| Carries(packet, p, d, s) && Payload(packet) == Some(d);
    PayloadUnique(packet, noise, data, sum, p, d, s);
  }

  /** A notification starts with '%', and is no packet unless its data holds a '$'. */
  lemma NotificationIsNoPacket(data: string)
    requires '$' !in data
    ensures Frame(true, data)[0] == '%' && Payload(Frame(true, data)) == None
  {
    var packet := Frame(true, data);
    assert '$' !in packet;
    forall prefix, data', sum ensures !Carries(packet, prefix, data', sum) {
      assert '$' in prefix + "$" + data' + "#" + sum;
    }
  }

  /** Soundness and completeness: a payload is accepted exactly from packets of that shape. */
  lemma PayloadShape(packet: string, data: string)
    ensures Payload(packet) == Some(data) <==> exists prefix, sum :: Carries(packet, prefix, data, sum)
  {
    if prefix, sum :| Carries(packet, prefix, data, sum) {
      var p, d, s :| Carries(packet, p, d, s) && Payload(packet) == Some(d);
      PayloadUnique(packet, prefix, data, sum, p, d, s);
    }
  }

  // ----- The scanning loops -----

  method FindUnescapedChar(val: char, packet: string) returns (found: bool, index: nat)
    ensures found ==> FirstAt(packet, val, index)
    ensures !found ==> forall i | 0 <= i < |packet| :: !UnescapedAt(packet, val, i)
  {
    found, index := false, 0;
    var i, inEscape := 0, false;
    while i < |packet|
      invariant 0 <= i <= |packet|
      invariant inEscape <==> EscapeRun(packet, i) % 2 == 1
      invariant forall j | 0 <= j < i :: !UnescapedAt(packet, val, j)
    {
      if inEscape {
        inEscape := false;
      } else if packet[i] == ESCAPE {
        inEscape := true;
      } else if packet[i] == val {
        return true, i;
      }
      i := i + 1;
    }
  }

  /** The two scans cut a packet into clean parts. */
  lemma CutPacket(packet: string, dollar: nat, pound: nat)
    requires FirstAt(packet, '$', dollar) && FirstAt(packet[dollar..], '#', pound)
    ensures 1 <= pound
    ensures var rest := packet[dollar..];
      && packet == packet[..dollar] + "$" + rest[1..pound] + "#" + rest[pound + 1..]
      && Clean(packet[..dollar], '$') && Clean(rest[1..pound], '#')
  {
    var rest := packet[dollar..];
    var data := rest[1..pound];
    CleanBeforeFirst(packet, '$', dollar);
    CleanBeforeFirst(rest, '#', pound);
    assert rest[..pound] == "$" + data;
    CleanWithDollar(data);
    assert rest == "$" + data + "#" + rest[pound + 1..];
    assert packet == packet[..dollar] + rest;
  }

  lemma CutIsUnique(packet: string, dollar: nat, pound: nat, prefix: string, data: string, sum: string)
    requires FirstAt(packet, '$', dollar) && FirstAt(packet[dollar..], '#', pound)
    requires Carries(packet, prefix, data, sum)
    ensures var rest := packet[dollar..];
      |prefix| == dollar && data == rest[1..pound] && sum == rest[pound + 1..]
  {
    CarriesPositions(packet, prefix, data, sum);
    FirstUnique(packet, '$', dollar, |prefix|);
    FirstUnique(packet[dollar..], '#', pound, 1 + |data|);
    assert packet[|prefix|..] == "$" + data + "#" + sum;
  }

  lemma PayloadIs(packet: string, prefix: string, data: string, sum: string)
    requires Carries(packet, prefix, data, sum)
    ensures Payload(packet) == Some(data)
  {
    forall p, d, s | Carries(packet, p, d, s) ensures d == data {
      PayloadUnique(packet, prefix, data, sum, p, d, s);
    }
  }

  /** What the tests of VerifyPacket decide, given the positions found by the scans. */
  lemma PayloadAt(packet: string, dollar: nat, pound: nat)
    requires FirstAt(packet, '$', dollar) && FirstAt(packet[dollar..], '#', pound)
    ensures 1 <= pound
    ensures var rest := packet[dollar..]; var data := rest[1..pound];
      Payload(packet) ==
        if |rest| - |data| == 4 && DecodeByte(rest[pound + 1..]) == Some(Checksum(data)) then Some(data) else None
  {
    var rest := packet[dollar..];
    CutPacket(packet, dollar, pound);
    var prefix, data, sum := packet[..dollar], rest[1..pound], rest[pound + 1..];
    if |rest| - |data| == 4 && DecodeByte(sum) == Some(Checksum(data)) {
      assert Carries(packet, prefix, data, sum);
      PayloadIs(packet, prefix, data, sum);
    } else {
      forall p, d, s ensures !Carries(packet, p, d, s) {
        if Carries(packet, p, d, s) { CutIsUnique(packet, dollar, pound, p, d, s); }
      }
    }
  }

  lemma PayloadNeedsDollar(packet: string)
    requires forall k :: !FirstAt(packet, '$', k)
    ensures Payload(packet).None?
  {
    forall p, d, s | Carries(packet, p, d, s) ensures FirstAt(packet, '$', |p|) { CarriesPositions(packet, p, d, s); }
  }

  lemma PayloadNeedsPound(packet: string, dollar: nat)
    requires FirstAt(packet, '$', dollar)
    requires |packet[dollar..]| < 4 || forall k :: !FirstAt(packet[dollar..], '#', k)
    ensures Payload(packet).None?
  {
    forall p, d, s | Carries(packet, p, d, s)
      ensures |p| == dollar && |packet[dollar..]| >= 4 && FirstAt(packet[dollar..], '#', 1 + |d|)
    {
      CarriesPositions(packet, p, d, s);
      FirstUnique(packet, '$', dollar, |p|);
    }
  }

  method LocalChecksum(data: string) returns (local: nat)
    ensures local == Checksum(data)
  {
    local := 0;
    for i := 0 to |data|
      invariant local == Checksum(data[..i])
    {
      local := (local + data[i] as int) % 256;
      assert data[..i + 1][..i] == data[..i];
    }
    assert data[..|data|] == data;
  }

  method VerifyPacket(packet: string) returns (r: Option<string>)
    ensures r == Payload(packet)
  {
    if packet == "" {
      PayloadNeedsDollar(packet);
      return None;
    }
    var found, dollar := FindUnescapedChar('$', packet);
    if !found {
      PayloadNeedsDollar(packet);
      return None;
    }
    var rest := packet[dollar..];
    if |rest| < 4 {
      PayloadNeedsPound(packet, dollar);
      return None;
    }
    var hasPound, pound := FindUnescapedChar('#', rest);
    if !hasPound {
      PayloadNeedsPound(packet, dollar);
      return None;
    }
    PayloadAt(packet, dollar, pound);
    var data := rest[1..pound];
    if |rest| - |data| != 4 { return None; }
    var received := DecodeByte(rest[pound + 1..]);
    if received.None? { return None; }
    var local := LocalChecksum(data);
    if local != received.value { return None; }
    return Some(data);
  }

  const MAX_BUFFER_SIZE := 4096

  /** The data of a packet that the outgoing buffer can hold. */
  predicate Fits(data: string) { |data| + 4 < MAX_BUFFER_SIZE }

  /** PostWriteTask: fills the outgoing buffer with the frame of `data`. */
  method WriteFrame(notify: bool, data: string, buffer: array<char>) returns (length: nat)
    requires buffer.Length == MAX_BUFFER_SIZE && Fits(data)
    modifies buffer
    ensures length <= buffer.Length && buffer[..length] == Frame(notify, data)
  {
    buffer[0] := if notify then '%' else '$';
    var checksum, i := 0, 0;
    while i < |data|
      invariant 0 <= i <= |data| && checksum == Checksum(data[..i])
      invariant buffer[..1 + i] == [if notify then '%' else '$'] + data[..i]
    {
      buffer[1 + i] := data[i];
      checksum := (checksum + data[i] as int) % 256;
      assert data[..i + 1][..i] == data[..i];
      assert buffer[..2 + i] == buffer[..1 + i] + [data[i]];
      i := i + 1;
    }
    assert data[..i] == data;
    var hex := EncodeByte(checksum);
    buffer[1 + i] := '#';
    buffer[2 + i], buffer[3 + i] := hex[0], hex[1];
    length := 4 + i;
    assert buffer[..length] == buffer[..1 + i] + "#" + hex;
  }
}
