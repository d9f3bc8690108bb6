/** The argument vector of a vRun packet: hexadecimal strings separated by ';'. */
module RunArgs {
  import opened Numerals
  import opened ThreadIds

  /** The pieces between the semicolons of the rest of a packet. */
  function Pieces(rest: string): seq<string>
    decreases |rest|
  {
    if rest == "" then []
    else
      var semi := Find(rest, ';', 0);
      [rest[..semi]] + Pieces(if semi == |rest| then "" else rest[semi + 1..])
  }

  /** The arguments read from a packet. */
  function ArgsIn(packet: string): seq<string> {
    DecodeAll(Pieces(packet))
  }

  function DecodeAll(pieces: seq<string>): (args: seq<string>)
    ensures |args| == |pieces| && forall i | 0 <= i < |args| :: args[i] == DecodeString(pieces[i])
  {
    if pieces == [] then [] else [DecodeString(pieces[0])] + DecodeAll(pieces[1..])
  }

  /** Where the piece after the one at `s` starts. */
  function NextStart(packet: string, s: nat): (n: nat)
    requires s < |packet|
    ensures s < n <= |packet|
  {
    var semi := Find(packet, ';', s);
    if semi == |packet| then |packet| else semi + 1
  }

  lemma PiecesFrom(packet: string, s: nat)
    requires s < |packet|
    ensures Pieces(packet[s..]) == [packet[s..Find(packet, ';', s)]] + Pieces(packet[NextStart(packet, s)..])
  {
    var semi := Find(packet, ';', s);
    FindInSuffix(packet, ';', s);
    assert packet[s..][..semi - s] == packet[s..semi];
    var next := packet[NextStart(packet, s)..];
    assert next == if semi == |packet| then "" else packet[s..][semi - s + 1..];
    PiecesUnfold(packet[s..], semi - s, next);
  }

  lemma PiecesUnfold(rest: string, semi: nat, next: string)
    requires rest != "" && semi == Find(rest, ';', 0)
    requires next == if semi == |rest| then "" else rest[semi + 1..]
    ensures Pieces(rest) == [rest[..semi]] + Pieces(next)
  {
  }

  lemma DecodeCons(pieces: seq<string>, piece: string, rest: seq<string>)
    requires pieces == [piece] + rest
    ensures DecodeAll(pieces) == [DecodeString(piece)] + DecodeAll(rest)
  {
    assert pieces[1..] == rest;
  }

  lemma ArgsFrom(packet: string, s: nat)
    requires s < |packet|
    ensures ArgsIn(packet[s..]) ==
      [DecodeString(packet[s..Find(packet, ';', s)])] + ArgsIn(packet[NextStart(packet, s)..])
  {
    PiecesFrom(packet, s);
    DecodeCons(Pieces(packet[s..]), packet[s..Find(packet, ';', s)], Pieces(packet[NextStart(packet, s)..]));
  }

  method BuildArgvFor_vRun(packet: string) returns (argv: seq<string>)
    ensures argv == ArgsIn(packet)
  {
    argv := [];
    var s := 0;
    assert packet[0..] == packet;
    ghost var all, rest := ArgsIn(packet), ArgsIn(packet);
    while s < |packet|
      invariant s <= |packet| && rest == ArgsIn(packet[s..]) && argv + rest == all
    {
      ArgsFrom(packet, s);
      var semi := Find(packet, ';', s);
      argv := argv + [DecodeString(packet[s..semi])];
      s := NextStart(packet, s);
      rest := rest[1..];
    }
  }

  predicate AllBytes(args: seq<string>) {
    forall i | 0 <= i < |args| :: forall c | c in args[i] :: IsByte(c)
  }

  function PrintArgs(args: seq<string>): string
    requires AllBytes(args)
  {
    if args == [] then ""
    else
      assert AllBytes(args[1..]);
      EncodeString(args[0]) + if |args| == 1 then "" else ";" + PrintArgs(args[1..])
  }

  lemma EncodedHasNoSemicolon(s: string)
    requires forall c | c in s :: IsByte(c)
    ensures ';' !in EncodeString(s)
  {
  }

  /** Cutting printed arguments at the first semicolon. */
  lemma CutArgs(args: seq<string>)
    requires AllBytes(args) && args != []
    ensures AllBytes(args[1..])
    ensures var s := PrintArgs(args); var semi := Find(s, ';', 0);
      && s[..semi] == EncodeString(args[0])
      && (if |args| == 1 then semi == |s| else semi < |s| && s[semi + 1..] == PrintArgs(args[1..]))
  {
    var text, s := EncodeString(args[0]), PrintArgs(args);
    EncodedHasNoSemicolon(args[0]);
    if |args| == 1 {
      assert s == text && s[0..] == s && s[..|s|] == s;
      FindNone(s, ';', 0);
    } else {
      assert s == text + ";" + PrintArgs(args[1..]);
      assert s[0..|text|] == text;
      FindIn(s, ';', 0, |text|);
    }
  }

  lemma FirstPiece(args: seq<string>)
    requires AllBytes(args) && args != []
    ensures AllBytes(args[1..])
    ensures Pieces(PrintArgs(args)) ==
      if |args| > 1 then [EncodeString(args[0])] + Pieces(PrintArgs(args[1..]))
      else if args[0] == "" then [] else [EncodeString(args[0])]
  {
    CutArgs(args);
    var s := PrintArgs(args);
    if s != "" {
      var semi := Find(s, ';', 0);
      PiecesUnfold(s, semi, if semi == |s| then "" else s[semi + 1..]);
    }
  }

  /** The encoded arguments; an empty last one leaves no trace. */
  function EncodeAll(args: seq<string>): seq<string>
    requires AllBytes(args)
  {
    if args == [] || (|args| == 1 && args[0] == "") then []
    else
      assert AllBytes(args[1..]);
      [EncodeString(args[0])] + EncodeAll(args[1..])
  }

  lemma {:induction false} PiecesReadBack(args: seq<string>)
    requires AllBytes(args)
    ensures Pieces(PrintArgs(args)) == EncodeAll(args)
    decreases |args|
  {
    if args != [] {
      FirstPiece(args);
      if |args| > 1 { PiecesReadBack(args[1..]); }
    }
  }

  /** The arguments without an empty last one. */
  function Restored(args: seq<string>): seq<string> {
    if args == [] || (|args| == 1 && args[0] == "") then [] else [args[0]] + Restored(args[1..])
  }

  lemma {:induction false} RestoredIs(args: seq<string>)
    ensures Restored(args) == if args != [] && args[|args| - 1] == "" then args[..|args| - 1] else args
  {
    if |args| > 1 {
      RestoredIs(args[1..]);
      assert args == [args[0]] + args[1..];
      assert args[..|args| - 1] == [args[0]] + args[1..][..|args| - 2];
    }
  }

  lemma {:induction false} DecodeEncodeAll(args: seq<string>)
    requires AllBytes(args)
    ensures DecodeAll(EncodeAll(args)) == Restored(args)
    decreases |args|
  {
    if args != [] && !(|args| == 1 && args[0] == "") {
      assert AllBytes(args[1..]);
      DecodeEncodeAll(args[1..]);
      StringRoundTrip(args[0]);
      DecodeCons(EncodeAll(args), EncodeString(args[0]), EncodeAll(args[1..]));
    }
  }

  /** What comes back: all arguments, except that an empty last one is lost. */
  lemma {:induction false} ArgsReadBack(args: seq<string>)
    requires AllBytes(args)
    ensures ArgsIn(PrintArgs(args))
         == if args != [] && args[|args| - 1] == "" then args[..|args| - 1] else args
  {
    PiecesReadBack(args);
    DecodeEncodeAll(args);
    RestoredIs(args);
  }

  /** The round trip holds exactly for vectors that are empty or end in a non-empty argument. */
  lemma {:induction false} ArgsRoundTrip(args: seq<string>)
    requires AllBytes(args)
    ensures ArgsIn(PrintArgs(args)) == args <==> (args == [] || args[|args| - 1] != "")
  {
    ArgsReadBack(args);
  }
}
