/** The action list of a vCont packet: an ordered list of actions for threads, with at most
    one default action. */
module ThreadActions {
  import opened Options
  import opened Numerals
  import opened ThreadIds

  datatype Action = Continue | Step

  const KOID_LIMIT := 0x1_0000_0000_0000_0000
  const ALL := KOID_LIMIT - 1

  datatype Entry = Entry(action: Action, pid: nat, tid: nat)

  /** The fields of a ThreadActionList; `default` is None for Action::kNone. */
  datatype Parsed = Parsed(valid: bool, default: Option<Action>, actions: seq<Entry>)

  function DecodeAction(c: char): Option<Action> {
    if c == 'c' then Some(Continue) else if c == 's' then Some(Step) else None
  }

  /** uint64_t to int64_t and back. */
  function Signed(x: nat): int { if x < INT64_LIMIT then x else x - KOID_LIMIT }

  function Unsigned(x: int): nat
    requires -INT64_LIMIT <= x
  {
    if x < 0 then x + KOID_LIMIT else x
  }

  // ----- What the constructor computes -----

  /** One action between semicolons. */
  datatype Directive = Bad | SetDefault(action: Action) | Add(entry: Entry)

  function ParseStep(text: string, curProc: nat, stale: string -> nat): Directive
    requires curProc < KOID_LIMIT
  {
    if text == "" || DecodeAction(text[0]).None? then Bad
    else if |text| == 1 then SetDefault(DecodeAction(text[0]).value)
    else if text[1] != ':' then Bad
    else ForThread(DecodeAction(text[0]).value, ThreadIdOf(text[2..], stale(text[2..])), curProc)
  }

  function ForThread(action: Action, id: Option<ThreadId>, curProc: nat): Directive
    requires curProc < KOID_LIMIT
  {
    if id.None? then Bad
    else
      var ThreadId(hasPid, pid, tid) := id.value;
      var process := if !hasPid || pid == 0 then Signed(curProc) else pid;
      if (hasPid && pid <= -2) || tid <= -2 then Bad
      else if process == -1 && tid != -1 then Bad
      else Add(Entry(action, Unsigned(process), Unsigned(tid)))
  }

  type Stepper = string -> Directive

  function StepperFor(curProc: nat, stale: string -> nat): Stepper
    requires curProc < KOID_LIMIT
  {
    text => ParseStep(text, curProc, stale)
  }

  /** The loop over the semicolons, from the state (default, actions). */
  function ParseRest(rest: string, step: Stepper, default: Option<Action>, actions: seq<Entry>): Parsed
    decreases |rest|
  {
    if rest == "" then Parsed(true, default, actions)
    else
      var semi := Find(rest, ';', 0);
      var next := if semi == |rest| then "" else rest[semi + 1..];
      match step(rest[..semi])
      case Bad => Parsed(false, None, actions)
      case SetDefault(a) =>
        if default.Some? then Parsed(false, None, actions)
        else ParseRest(next, step, Some(a), actions)
      case Add(e) => ParseRest(next, step, default, actions + [e])
  }

  /** One round of the loop, at position `s`. */
  lemma ParseFrom(str: string, s: nat, step: Stepper, default: Option<Action>, actions: seq<Entry>)
    requires s < |str|
    ensures var semi := Find(str, ';', s);
      var d, next := step(str[s..semi]), if semi == |str| then |str| else semi + 1;
      ParseRest(str[s..], step, default, actions) ==
        if d.Bad? || (d.SetDefault? && default.Some?) then Parsed(false, None, actions)
        else if d.SetDefault? then ParseRest(str[next..], step, Some(d.action), actions)
        else ParseRest(str[next..], step, default, actions + [d.entry])
  {
    var semi := Find(str, ';', s);
    FindInSuffix(str, ';', s);
    assert str[s..][..semi - s] == str[s..semi];
    assert semi < |str| ==> str[s..][semi - s + 1..] == str[semi + 1..];
  }

  function Parse(str: string, curProc: nat, stale: string -> nat): Parsed
    requires curProc < KOID_LIMIT
  {
    if str == "" then Parsed(false, None, []) else ParseRest(str, StepperFor(curProc, stale), None, [])
  }

  predicate Contains(e: Entry, pid: nat, tid: nat) {
    (pid == e.pid || e.pid == ALL) && (tid == e.tid || e.tid == ALL)
  }

  /** The action of the first entry that contains the thread, or the default action. */
  function ActionFor(p: Parsed, pid: nat, tid: nat): Option<Action>
    decreases |p.actions|
  {
    if p.actions == [] then p.default
    else if Contains(p.actions[0], pid, tid) then Some(p.actions[0].action)
    else ActionFor(p.(actions := p.actions[1..]), pid, tid)
  }

  class ThreadActionList {
    var valid: bool
    var default: Option<Action>
    var actions: seq<Entry>

    constructor (str: string, curProc: nat, stale: string -> nat)
      requires 0 < curProc < KOID_LIMIT
      ensures Parsed(valid, default, actions) == Parse(str, curProc, stale)
    {
      valid, default, actions := false, None, [];
      new;
      if str == "" { return; }
      var s, defaultAction := 0, None;
      while s < |str|
        invariant s <= |str| && !valid && default.None?
        invariant Parse(str, curProc, stale) == ParseRest(str[s..], StepperFor(curProc, stale), defaultAction, actions)
      {
        var semi := Find(str, ';', s);
        ParseFrom(str, s, StepperFor(curProc, stale), defaultAction, actions);
        var step := ParseStep(str[s..semi], curProc, stale);
        if step.Bad? || (step.SetDefault? && defaultAction.Some?) {
          return;
        } else if step.SetDefault? {
          defaultAction := Some(step.action);
        } else {
          actions := actions + [step.entry];
        }
        s := if semi == |str| then |str| else semi + 1;
      }
      default := defaultAction;
      valid := true;
    }

    method GetAction(pid: nat, tid: nat) returns (r: Option<Action>)
      requires pid != 0 && pid != ALL && tid != 0 && tid != ALL
      ensures r == ActionFor(Parsed(valid, default, actions), pid, tid)
      ensures (forall e | e in actions :: (e.pid != pid && e.pid != ALL) || (e.tid != tid && e.tid != ALL)) ==>
        r == default
      ensures (exists e | e in actions :: (e.pid == pid || e.pid == ALL) && (e.tid == tid || e.tid == ALL)) ==>
        exists i | 0 <= i < |actions| ::
          && Contains(actions[i], pid, tid) && r == Some(actions[i].action)
          && forall j | 0 <= j < i :: !Contains(actions[j], pid, tid)
    {
      var i := 0;
      assert actions[0..] == actions;
      while i < |actions|
        invariant 0 <= i <= |actions|
        invariant ActionFor(Parsed(valid, default, actions[i..]), pid, tid) ==
          ActionFor(Parsed(valid, default, actions), pid, tid)
        invariant forall j | 0 <= j < i :: !Contains(actions[j], pid, tid)
      {
        if Contains(actions[i], pid, tid) {
          return Some(actions[i].action);
        }
        assert actions[i..][1..] == actions[i + 1..];
        i := i + 1;
      }
      return default;
    }
  }

  // ----- The grammar of action lists -----

  datatype Id = Every | One(n: nat)

  datatype Item =
    | Default(action: Action)
    | OnThread(action: Action, tid: Id)
    | OnProcess(action: Action, pid: Id, tid: Id)

  function PrintAction(a: Action): char { if a.Continue? then 'c' else 's' }

  function PrintId(id: Id): string { if id.Every? then "-1" else Print(id.n, Sixteen) }

  function PrintItem(item: Item): string {
    match item
    case Default(a) => [PrintAction(a)]
    case OnThread(a, tid) => [PrintAction(a), ':'] + PrintId(tid)
    case OnProcess(a, pid, tid) => [PrintAction(a), ':'] + ("p" + PrintId(pid) + "." + PrintId(tid))
  }

  function PrintItems(items: seq<Item>): string
    requires items != []
  {
    if |items| == 1 then PrintItem(items[0]) else PrintItem(items[0]) + ";" + PrintItems(items[1..])
  }

  predicate SmallId(id: Id) { id.One? ==> id.n < INT64_LIMIT }

  predicate WellFormedItem(item: Item) {
    match item
    case Default(_) => true
    case OnThread(_, tid) => SmallId(tid)
    case OnProcess(_, pid, tid) => SmallId(pid) && SmallId(tid) && (pid.Every? ==> tid.Every?)
  }

  function Defaults(items: seq<Item>): nat {
    if items == [] then 0 else (if items[0].Default? then 1 else 0) + Defaults(items[1..])
  }

  predicate WellFormed(items: seq<Item>) {
    items != [] && Defaults(items) <= 1 && forall i | 0 <= i < |items| :: WellFormedItem(items[i])
  }

  function KoidOf(id: Id): nat { if id.Every? then ALL else id.n }

  /** What an item asks for; a missing or zero pid means the current process. */
  function StepOf(item: Item, curProc: nat): Directive {
    match item
    case Default(a) => SetDefault(a)
    case OnThread(a, tid) => Add(Entry(a, curProc, KoidOf(tid)))
    case OnProcess(a, pid, tid) => Add(Entry(a, if pid == One(0) then curProc else KoidOf(pid), KoidOf(tid)))
  }

  function Entries(items: seq<Item>, curProc: nat): seq<Entry> {
    if items == [] then []
    else (if items[0].Default? then [] else [StepOf(items[0], curProc).entry]) + Entries(items[1..], curProc)
  }

  function DefaultOf(items: seq<Item>): Option<Action> {
    if items == [] then None
    else if items[0].Default? then Some(items[0].action)
    else DefaultOf(items[1..])
  }

  // ----- Printing and parsing -----

  function SignedKoid(id: Id): int { if id.Every? then -1 else id.n }

  lemma IdRoundTrip(id: Id)
    requires SmallId(id)
    ensures ParseInt64(PrintId(id)) == Some(SignedKoid(id))
    ensures PrintId(id) != "" && (forall c | c in PrintId(id) :: IsUpper(c) || c == '-')
  {
    MinusOneParse();
    if id.One? { PrintParse(id.n); }
  }

  lemma ParseWithId(a: Action, id: string, curProc: nat, stale: string -> nat)
    requires curProc < KOID_LIMIT && id != ""
    ensures ParseStep([PrintAction(a), ':'] + id, curProc, stale) == ForThread(a, ThreadIdOf(id, stale(id)), curProc)
  {
    assert ([PrintAction(a), ':'] + id)[2..] == id;
  }

  lemma ItemRoundTrip(item: Item, curProc: nat, stale: string -> nat)
    requires WellFormedItem(item) && 0 < curProc < INT64_LIMIT
    ensures ParseStep(PrintItem(item), curProc, stale) == StepOf(item, curProc)
  {
    match item
    case Default(a) =>
    case OnThread(a, tid) =>
      ThreadRoundTrip(tid, stale(PrintId(tid)));
      ParseWithId(a, PrintId(tid), curProc, stale);
    case OnProcess(a, pid, tid) =>
      var id := "p" + PrintId(pid) + "." + PrintId(tid);
      ProcessRoundTrip(pid, tid, stale(id));
      ParseWithId(a, id, curProc, stale);
  }

  lemma ThreadRoundTrip(tid: Id, stale: nat)
    requires SmallId(tid)
    ensures PrintId(tid) != "" && ThreadIdOf(PrintId(tid), stale) == Some(ThreadId(false, 0, SignedKoid(tid)))
  {
    IdRoundTrip(tid);
    assert PrintId(tid)[0] != 'p';
  }

  lemma ProcessRoundTrip(pid: Id, tid: Id, stale: nat)
    requires SmallId(pid) && SmallId(tid)
    ensures ThreadIdOf("p" + PrintId(pid) + "." + PrintId(tid), stale)
         == Some(ThreadId(true, SignedKoid(pid), SignedKoid(tid)))
  {
    IdRoundTrip(pid);
    IdRoundTrip(tid);
    PairOfNumerals(PrintId(pid), PrintId(tid), stale);
  }

  lemma ItemHasNoSemicolon(item: Item)
    requires WellFormedItem(item)
    ensures PrintItem(item) != "" && ';' !in PrintItem(item)
  {
    match item
    case Default(_) =>
    case OnThread(a, tid) =>
      IdRoundTrip(tid);
      assert ';' !in [PrintAction(a)] + ":" + PrintId(tid);
    case OnProcess(a, pid, tid) =>
      IdRoundTrip(pid);
      IdRoundTrip(tid);
      assert ';' !in [PrintAction(a)] + ":" + ("p" + PrintId(pid) + "." + PrintId(tid));
  }

  /** Cutting a printed list at its first semicolon. */
  lemma CutPrinted(items: seq<Item>)
    requires items != [] && WellFormedItem(items[0])
    ensures var s := PrintItems(items); var semi := Find(s, ';', 0);
      && s != "" && s[..semi] == PrintItem(items[0])
      && (if |items| == 1 then semi == |s| else semi < |s| && s[semi + 1..] == PrintItems(items[1..]))
  {
    var s, text := PrintItems(items), PrintItem(items[0]);
    ItemHasNoSemicolon(items[0]);
    if |items| == 1 {
      assert s[0..] == s && s[..|s|] == s;
      FindNone(s, ';', 0);
    } else {
      assert s == text + ";" + PrintItems(items[1..]);
      assert s[0..|text|] == text;
      FindIn(s, ';', 0, |text|);
    }
  }

  /** The state after all of `items`, from (default, actions). */
  function After(items: seq<Item>, curProc: nat, default: Option<Action>, actions: seq<Entry>): Parsed {
    Parsed(true, if default.Some? then default else DefaultOf(items), actions + Entries(items, curProc))
  }

  lemma AfterStep(item: Item, rest: seq<Item>, curProc: nat, default: Option<Action>, actions: seq<Entry>)
    ensures item.Default? && default.None? ==>
      After([item] + rest, curProc, default, actions) == After(rest, curProc, Some(item.action), actions)
    ensures !item.Default? ==>
      After([item] + rest, curProc, default, actions)
        == After(rest, curProc, default, actions + [StepOf(item, curProc).entry])
  {
    assert ([item] + rest)[1..] == rest;
  }

  /** Parsing consumes the first printed item. */
  lemma ParseFirst(items: seq<Item>, step: Stepper, default: Option<Action>, actions: seq<Entry>)
    requires items != [] && WellFormedItem(items[0])
    ensures var next := if |items| == 1 then "" else PrintItems(items[1..]);
      var d := step(PrintItem(items[0]));
      var parsed := ParseRest(PrintItems(items), step, default, actions);
      && (d.Add? ==> parsed == ParseRest(next, step, default, actions + [d.entry]))
      && (d.SetDefault? && default.None? ==> parsed == ParseRest(next, step, Some(d.action), actions))
  {
    CutPrinted(items);
  }

  lemma {:induction false} ParsePrinted(items: seq<Item>, curProc: nat, step: Stepper,
                                        default: Option<Action>, actions: seq<Entry>)
    requires WellFormed(items)
    requires forall i | 0 <= i < |items| :: step(PrintItem(items[i])) == StepOf(items[i], curProc)
    requires default.Some? ==> Defaults(items) == 0
    ensures ParseRest(PrintItems(items), step, default, actions) == After(items, curProc, default, actions)
    decreases |items|
  {
    var item, rest := items[0], items[1..];
    var default' := if item.Default? then Some(item.action) else default;
    var actions' := if item.Default? then actions else actions + [StepOf(item, curProc).entry];
    assert items == [item] + rest;
    AfterStep(item, rest, curProc, default, actions);
    ParseFirst(items, step, default, actions);
    assert step(PrintItem(item)) == StepOf(item, curProc);
    if rest == [] {
      assert After(rest, curProc, default', actions') == Parsed(true, default', actions');
    } else {
      ParsePrinted(rest, curProc, step, default', actions');
    }
  }

  /** Round trip: parsing a printed well-formed list gives back its entries, in order, and
      its default action. */
  lemma {:induction false} ListRoundTrip(items: seq<Item>, curProc: nat, stale: string -> nat)
    requires WellFormed(items) && 0 < curProc < INT64_LIMIT
    ensures Parse(PrintItems(items), curProc, stale) == Parsed(true, DefaultOf(items), Entries(items, curProc))
  {
    CutPrinted(items);
    forall i | 0 <= i < |items| ensures ParseStep(PrintItem(items[i]), curProc, stale) == StepOf(items[i], curProc) {
      ItemRoundTrip(items[i], curProc, stale);
    }
    ParsePrinted(items, curProc, StepperFor(curProc, stale), None, []);
  }

  // ----- What a valid parse looks like -----

  function IdOf(koid: nat): Id { if koid == ALL then Every else One(koid) }

  /** A list whose items stand for one directive. */
  function ItemOf(d: Directive): Item
    requires !d.Bad?
  {
    if d.SetDefault? then Default(d.action) else OnProcess(d.entry.action, IdOf(d.entry.pid), IdOf(d.entry.tid))
  }

  lemma DirectiveIsWellFormed(text: string, curProc: nat, stale: string -> nat)
    requires 0 < curProc < INT64_LIMIT && !ParseStep(text, curProc, stale).Bad?
    ensures var d := ParseStep(text, curProc, stale);
      WellFormedItem(ItemOf(d)) && StepOf(ItemOf(d), curProc) == d
  {
  }

  lemma {:induction false} ParsedIsWellFormed(rest: string, curProc: nat, step: Stepper,
                                              default: Option<Action>, actions: seq<Entry>)
    returns (items: seq<Item>)
    requires ParseRest(rest, step, default, actions).valid
    requires forall text | !step(text).Bad? ::
      WellFormedItem(ItemOf(step(text))) && StepOf(ItemOf(step(text)), curProc) == step(text)
    ensures forall i | 0 <= i < |items| :: WellFormedItem(items[i])
    ensures Defaults(items) <= if default.Some? then 0 else 1
    ensures ParseRest(rest, step, default, actions) == After(items, curProc, default, actions)
    ensures rest != "" ==> items != []
    decreases |rest|
  {
    items := [];
    if rest == "" {
      assert actions + [] == actions;
    } else {
      var semi := Find(rest, ';', 0);
      var next := if semi == |rest| then "" else rest[semi + 1..];
      var d := step(rest[..semi]);
      var default' := if d.SetDefault? then Some(d.action) else default;
      var actions' := if d.SetDefault? then actions else actions + [d.entry];
      var tail := ParsedIsWellFormed(next, curProc, step, default', actions');
      items := [ItemOf(d)] + tail;
      assert items[1..] == tail;
      AfterStep(ItemOf(d), tail, curProc, default, actions);
    }
  }

  /** Every valid parse is the parse of a well-formed list: at most one default, and all
      processes only together with all threads. */
  lemma {:induction false} ValidParseIsWellFormed(str: string, curProc: nat, stale: string -> nat)
    returns (items: seq<Item>)
    requires 0 < curProc < INT64_LIMIT && Parse(str, curProc, stale).valid
    ensures WellFormed(items)
    ensures Parse(str, curProc, stale) == Parsed(true, DefaultOf(items), Entries(items, curProc))
    ensures Parse(PrintItems(items), curProc, stale) == Parse(str, curProc, stale)
  {
    forall text | !ParseStep(text, curProc, stale).Bad?
      ensures var d := ParseStep(text, curProc, stale); WellFormedItem(ItemOf(d)) && StepOf(ItemOf(d), curProc) == d
    {
      DirectiveIsWellFormed(text, curProc, stale);
    }
    items := ParsedIsWellFormed(str, curProc, StepperFor(curProc, stale), None, []);
    ListRoundTrip(items, curProc, stale);
  }
}
