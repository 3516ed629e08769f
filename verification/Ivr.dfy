/** The IVR interpreter and local dialling, which call each other over an arbitrary goto table, with
    one depth counter a call. */
module Ivr {
  import opened Strings

  /** Where the interpreter is: an IVR number, and the ordinal of an action in it. */
  type Position = (string, int)

  datatype Result = Result(nextType: string, nextArgs: Option<string>)

  datatype QueueResult = QueueResult(gotoIvrNumber: string, gotoIvrActId: int)

  datatype Reason = TooDeep | Failed | OtherTenant | UnknownNumber

  datatype Outcome = Done(result: Result) | Rejected(reason: Reason)

  /** A row of the action table; `args` is a JSON text that only actions look into. */
  datatype Row = Row(actionType: int, args: string)

  /** Everything a call meets: the rows of the action table, what an action does, which kind of number
      a local number is, how queues and extensions end, and `+text`. The first argument counts the
      actions the call has executed so far; None is a failure. */
  datatype World = World(
    row: (nat, Position) -> Option<Row>,
    done: (nat, Row) -> Option<Result>,
    localType: (nat, string) -> Option<string>,
    answers: nat -> bool,
    extension: (nat, string) -> bool,
    queue: (nat, string) -> Option<QueueResult>,
    number: string -> Option<int>)

  /** The run data of a call; `trace` lists the actions executed, `mainIvr` is the service's field. */
  datatype Call = Call(deep: nat, maxDeep: nat, answered: bool, trace: seq<Position>, mainIvr: string)

  const FRESH := Call(0, 100, false, [], "")

  const NORMAL := Result("normal", None)

  /** Where an action with `nextType` 'ivr' goes: the next one, or "number,ordinal". */
  function Goto(w: World, at: Position, nextArgs: Option<string>): Position {
    if nextArgs == None || nextArgs.value == "" then (at.0, at.1 + 1)
    else
      var parts := Split(nextArgs.value, ",");
      var n := if |parts| > 1 then w.number(parts[1]) else None;
      (parts[0], if n.Some? && n.value != 0 then n.value else 1)
  }

  /** `doneAction`: the kinds that do nothing, and those whose outcome depends on the call. */
  function DoneAction(w: World, n: nat, row: Row): Option<Result> {
    if row.actionType in {1, 4, 6, 9, 14, 16, 20, 21, 23, 24} then w.done(n, row)
    else if row.actionType in {19, 22, 25} then Some(Result("todo", None))
    else Some(NORMAL)
  }

  function Execute(c: Call, at: Position): Call {
    c.(deep := c.deep + 1, trace := c.trace + [at], mainIvr := if c.mainIvr == "" then at.0 else c.mainIvr)
  }

  /** `ivrAction`. */
  function IvrAction(w: World, c: Call, at: Position): (r: (Call, Outcome))
    ensures c.deep <= r.0.deep && r.0.maxDeep == c.maxDeep
    ensures r.1.Done? && r.1.result.nextType == "diallocal" ==> c.deep < r.0.deep <= r.0.maxDeep
    decreases c.maxDeep - c.deep
  {
    if c.deep < c.maxDeep then
      match w.row(|c.trace|, at)
      case None => (c, Done(NORMAL))
      case Some(row) =>
        var c' := Execute(c, at);
        match DoneAction(w, |c.trace|, row)
        case None => (c', Rejected(Failed))
        case Some(result) =>
          if result.nextType == "ivr" then IvrAction(w, c', Goto(w, at, result.nextArgs)) else (c', Done(result))
    else (c, Rejected(TooDeep))
  }

  function Finished(o: Outcome): Option<Reason> {
    match o
    case Done(_) => None
    case Rejected(reason) => Some(reason)
  }

  /** `diallocal`; None is success. */
  function DialLocal(w: World, c: Call, number: string): (Call, Option<Reason>)
    decreases c.maxDeep - c.deep, 1
  {
    if '@' in number then (c, Some(OtherTenant))
    else
      match w.localType(|c.trace|, number)
      case None => (c, Some(UnknownNumber))
      case Some(localType) =>
        if localType == "ivr" then DialIvr(w, c, number)
        else if localType == "extension" then (c, if w.extension(|c.trace|, number) then None else Some(Failed))
        else if localType == "queue" then DialQueue(w, c, number)
        else (c, None)
  }

  /** `dialIVR`: answer, interpret from the first action, and dial on if that is what it ends with. */
  function DialIvr(w: World, c: Call, number: string): (Call, Option<Reason>)
    decreases c.maxDeep - c.deep, 0
  {
    if !c.answered && !w.answers(|c.trace|) then (c, Some(Failed))
    else
      var (c', o) := IvrAction(w, c.(answered := true), (number, 1));
      if o.Done? && o.result.nextType == "diallocal" then DialLocal(w, c', Shown(o.result.nextArgs))
      else (c', Finished(o))
  }

  /** An argument that is not there reads "undefined". */
  function Shown(nextArgs: Option<string>): string {
    if nextArgs.Some? then nextArgs.value else "undefined"
  }

  /** `dialQueue`: what the IVR after the queue ends with is ignored. */
  function DialQueue(w: World, c: Call, number: string): (Call, Option<Reason>) {
    match w.queue(|c.trace|, number)
    case None => (c, Some(Failed))
    case Some(q) =>
      if q.gotoIvrNumber == "" then (c, None)
      else
        var (c', o) := IvrAction(w, c, (q.gotoIvrNumber, q.gotoIvrActId));
        (c', Finished(o))
  }

  /* ---- the goto machine ---- */

  /** One step of the machine from a position, as action number `n` of the call: None halts. */
  function Next(w: World, n: nat, at: Position): Option<Position> {
    match w.row(n, at)
    case None => None
    case Some(row) =>
      match DoneAction(w, n, row)
      case None => None
      case Some(result) => if result.nextType == "ivr" then Some(Goto(w, at, result.nextArgs)) else None
  }

  /** The position after `k` steps from `at`, if the machine gets that far. */
  function AfterSteps(w: World, n: nat, at: Position, k: nat): Option<Position> {
    if k == 0 then Some(at)
    else
      match AfterSteps(w, n, at, k - 1)
      case None => None
      case Some(p) => Next(w, n + k - 1, p)
  }

  /** What the machine halts with at a position it cannot step from. */
  function HaltsWith(w: World, n: nat, at: Position): Outcome {
    match w.row(n, at)
    case None => Done(NORMAL)
    case Some(row) =>
      match DoneAction(w, n, row)
      case None => Rejected(Failed)
      case Some(result) => Done(result)
  }

  /** The machine takes exactly `k` steps from `at`. */
  predicate HaltsAfter(w: World, n: nat, at: Position, k: nat) {
    AfterSteps(w, n, at, k).Some? && Next(w, n + k, AfterSteps(w, n, at, k).value) == None
  }

  lemma {:induction false} StepsShift(w: World, n: nat, at: Position, k: nat)
    requires Next(w, n, at).Some?
    ensures AfterSteps(w, n, at, k + 1) == AfterSteps(w, n + 1, Next(w, n, at).value, k)
    decreases k
  {
    hide Next, Goto;
    if k == 0 {
      assert AfterSteps(w, n, at, 0) == Some(at);
    } else {
      StepsShift(w, n, at, k - 1);
    }
  }

  lemma {:induction false} HaltedStays(w: World, n: nat, at: Position, k: nat, j: nat)
    requires k <= j && AfterSteps(w, n, at, k) == None
    ensures AfterSteps(w, n, at, j) == None
    decreases j
  {
    if k < j {
      HaltedStays(w, n, at, k, j - 1);
    }
  }

  /** One action of the interpreter is one step of the machine. */
  lemma ActionIsStep(w: World, c: Call, at: Position)
    requires c.deep < c.maxDeep
    ensures var next := Next(w, |c.trace|, at);
            IvrAction(w, c, at) ==
            if next.Some? then IvrAction(w, Execute(c, at), next.value)
            else (if w.row(|c.trace|, at).Some? then Execute(c, at) else c, HaltsWith(w, |c.trace|, at))
    ensures Next(w, |c.trace|, at) == None ==> HaltsWith(w, |c.trace|, at) != Rejected(TooDeep)
  {
    hide Goto;
  }

  /** The interpreter ends as the machine does after `k` steps, with the actions passed counted. */
  predicate EndsLike(w: World, c: Call, at: Position, k: nat) {
    var (c', o) := IvrAction(w, c, at);
    var n := |c.trace|;
    && HaltsAfter(w, n, at, k)
    && o == HaltsWith(w, n + k, AfterSteps(w, n, at, k).value)
    && c'.deep == c.deep + k + (if w.row(n + k, AfterSteps(w, n, at, k).value).Some? then 1 else 0)
  }

  lemma EndsLikeNext(w: World, c: Call, at: Position, k: nat)
    requires c.deep < c.maxDeep && Next(w, |c.trace|, at).Some?
    ensures EndsLike(w, Execute(c, at), Next(w, |c.trace|, at).value, k) ==> EndsLike(w, c, at, k + 1)
  {
    hide IvrAction, Next, HaltsWith, Goto;
    ActionIsStep(w, c, at);
    StepsShift(w, |c.trace|, at, k);
  }

  lemma {:induction false} Refines(w: World, c: Call, at: Position)
    requires c.deep <= c.maxDeep
    ensures var (c', o) := IvrAction(w, c, at); var left := c.maxDeep - c.deep;
            && (o == Rejected(TooDeep) <==> AfterSteps(w, |c.trace|, at, left).Some?)
            && (o == Rejected(TooDeep) ==> c'.deep == c.maxDeep)
            && (o != Rejected(TooDeep) ==> exists k :: 0 <= k < left && EndsLike(w, c, at, k))
    decreases c.maxDeep - c.deep
  {
    hide Goto, Next, EndsLike, HaltsWith;
    var n, left := |c.trace|, c.maxDeep - c.deep;
    if left > 0 {
      ActionIsStep(w, c, at);
      match Next(w, n, at)
      case None =>
        HaltsHere(w, c, at, left);
      case Some(p) =>
        Refines(w, Execute(c, at), p);
        StepsShift(w, n, at, left - 1);
        if IvrAction(w, c, at).1 != Rejected(TooDeep) {
          var k :| 0 <= k < left - 1 && EndsLike(w, Execute(c, at), p, k);
          EndsLikeNext(w, c, at, k);
        }
    }
  }

  /** The machine halts after `k` steps and after no other number of them. */
  ghost predicate HaltsJustAfter(w: World, n: nat, at: Position, k: nat) {
    HaltsAfter(w, n, at, k) && forall j: nat :: HaltsAfter(w, n, at, j) ==> j == k
  }

  /** Refinement: the interpreter rejects for depth exactly when the machine has a position left after as
      many steps as the counter allows; else it ends as the machine does after the one number of steps at
      which it halts. */
  lemma RefinesMachine(w: World, c: Call, at: Position)
    requires c.deep <= c.maxDeep
    ensures var (c', o) := IvrAction(w, c, at); var left := c.maxDeep - c.deep;
            && (o == Rejected(TooDeep) <==> AfterSteps(w, |c.trace|, at, left).Some?)
            && (o == Rejected(TooDeep) ==> c'.deep == c.maxDeep)
            && (o != Rejected(TooDeep) ==>
                  exists k :: 0 <= k < left && EndsLike(w, c, at, k) && HaltsJustAfter(w, |c.trace|, at, k))
  {
    hide AfterSteps, IvrAction, Next;
    Refines(w, c, at);
    if IvrAction(w, c, at).1 != Rejected(TooDeep) {
      var k :| 0 <= k < c.maxDeep - c.deep && EndsLike(w, c, at, k);
      forall j: nat | HaltsAfter(w, |c.trace|, at, j) ensures j == k {
        HaltsOnce(w, |c.trace|, at, j, k);
      }
    }
  }

  /** The actions executed are those at the positions the machine passes. */
  lemma {:induction false} TraceIsMachine(w: World, c: Call, at: Position, j: nat)
    requires |c.trace| + j < |IvrAction(w, c, at).0.trace|
    ensures AfterSteps(w, |c.trace|, at, j) == Some(IvrAction(w, c, at).0.trace[|c.trace| + j])
    decreases c.maxDeep - c.deep
  {
    hide Goto, Next, HaltsWith;
    ActionIsStep(w, c, at);
    match Next(w, |c.trace|, at)
    case None =>
    case Some(p) =>
      Counted(w, Execute(c, at), p);
      if j > 0 {
        TraceIsMachine(w, Execute(c, at), p, j - 1);
        StepsShift(w, |c.trace|, at, j - 1);
      }
  }

  lemma HaltsHere(w: World, c: Call, at: Position, left: nat)
    requires c.deep < c.maxDeep && Next(w, |c.trace|, at) == None && left > 0
    ensures EndsLike(w, c, at, 0) && AfterSteps(w, |c.trace|, at, left) == None
  {
    hide Goto;
    ActionIsStep(w, c, at);
    assert AfterSteps(w, |c.trace|, at, 1) == None;
    HaltedStays(w, |c.trace|, at, 1, left);
  }

  /** The number of steps to a halt is unique. */
  lemma HaltsOnce(w: World, n: nat, at: Position, j: nat, k: nat)
    requires HaltsAfter(w, n, at, j) && HaltsAfter(w, n, at, k)
    ensures j == k
  {
    if j < k {
      HaltedStays(w, n, at, j + 1, k);
    } else if k < j {
      HaltedStays(w, n, at, k + 1, j);
    }
  }

  /** An outcome of the interpreter never asks to go on in an IVR. */
  lemma {:induction false} NeverIvr(w: World, c: Call, at: Position)
    ensures var o := IvrAction(w, c, at).1; o.Done? ==> o.result.nextType != "ivr"
    decreases c.maxDeep - c.deep
  {
    hide Goto;
    if c.deep < c.maxDeep && Next(w, |c.trace|, at).Some? {
      NeverIvr(w, Execute(c, at), Next(w, |c.trace|, at).value);
    }
  }

  /* ---- the goto encoding ---- */

  /** The encoding "number,ordinal" goes to that very position exactly for a number without comma and an
      ordinal that is not zero. */
  lemma GotoEncoding(w: World, at: Position, number: string, ordinal: int)
    requires w.number(Decimal(ordinal)) == Some(ordinal)
    ensures Goto(w, at, Some(number + "," + Decimal(ordinal))) == (number, ordinal) <==> ',' !in number && ordinal != 0
  {
    var text := number + "," + Decimal(ordinal);
    if ',' in number {
      SplitPartsClean(text, ",", 0);
      FindCharAbsent(Split(text, ",")[0], ',');
    } else {
      FindChar(number, ',', Decimal(ordinal));
      SplitAfter(number, ",", Decimal(ordinal));
      DecimalOneWord(ordinal);
      assert Split(text, ",") == [number, Decimal(ordinal)];
    }
  }

  lemma DecimalOneWord(n: int)
    ensures Split(Decimal(n), ",") == [Decimal(n)]
  {
    DigitsNoComma(n);
    FindCharAbsent(Decimal(n), ',');
  }

  lemma DigitsNoComma(n: int)
    ensures ',' !in Decimal(n)
  {
  }

  /* ---- a whole call ---- */

  /** Interpreting executes as many actions as the counter moves, and no more than it allows. */
  lemma {:induction false} Counted(w: World, c: Call, at: Position)
    ensures var (c', o) := IvrAction(w, c, at);
            && c.trace <= c'.trace && |c'.trace| - |c.trace| == c'.deep - c.deep
            && (c.deep <= c.maxDeep ==> c'.deep <= c.maxDeep)
            && (o == Rejected(TooDeep) ==> c'.deep >= c.maxDeep)
            && (c.mainIvr != "" ==> c'.mainIvr == c.mainIvr)
    decreases c.maxDeep - c.deep
  {
    hide Goto;
    if c.deep < c.maxDeep && Next(w, |c.trace|, at).Some? {
      Counted(w, Execute(c, at), Next(w, |c.trace|, at).value);
    }
  }

  /** A whole call, whatever the goto table and however dialling and interpreting call each other: it ends,
      the actions executed are those counted, at most the maximum in all, and it is cut off for depth only
      when that many have been executed. */
  lemma {:induction false} CallBounded(w: World, c: Call, number: string)
    requires c.deep <= c.maxDeep
    ensures var (c', o) := DialLocal(w, c, number);
            && c.trace <= c'.trace && |c'.trace| - |c.trace| == c'.deep - c.deep && c'.deep <= c'.maxDeep == c.maxDeep
            && (o == Some(TooDeep) ==> c'.deep == c.maxDeep)
    decreases c.maxDeep - c.deep
  {
    hide IvrAction;
    match w.localType(|c.trace|, number)
    case None =>
    case Some(localType) =>
      Counted(w, c.(answered := true), (number, 1));
      var (c', o) := IvrAction(w, c.(answered := true), (number, 1));
      if o.Done? && o.result.nextType == "diallocal" {
        CallBounded(w, c', Shown(o.result.nextArgs));
      }
      match w.queue(|c.trace|, number)
      case None =>
      case Some(q) => Counted(w, c, (q.gotoIvrNumber, q.gotoIvrActId));
  }

  /** In particular a fresh call executes at most a hundred actions. */
  lemma FreshCallBounded(w: World, number: string)
    ensures |DialLocal(w, FRESH, number).0.trace| <= 100
  {
    CallBounded(w, FRESH, number);
  }

  /* ---- where the interpreter goes ---- */

  /** What comes behind a "number,ordinal": nothing, or a further part. */
  predicate NoMorePart(rest: string) { rest == "" || rest[0] == ',' }

  /** An argument goes on at its first part, and at the ordinal in its second part if that is a number other than 0,
      else at the first action; further parts do not matter. */
  lemma GotoReads(w: World, at: Position, number: string, second: string, rest: string)
    requires ',' !in number && ',' !in second && NoMorePart(rest)
    ensures Goto(w, at, Some(number + "," + (second + rest))) ==
            (number, match w.number(second) case Some(n) => if n != 0 then n else 1 case None => 1)
  {
    hide Find;
    var tail := second + rest;
    FindChar(number, ',', tail);
    SplitAfter(number, ",", tail);
    assert Split(number + "," + tail, ",") == [number] + Split(tail, ",");
    SecondPart(second, rest);
  }

  lemma SecondPart(second: string, rest: string)
    requires ',' !in second && NoMorePart(rest)
    ensures Split(second + rest, ",") != [] && Split(second + rest, ",")[0] == second
  {
    hide Find;
    FindCharAbsent(second, ',');
    if rest == "" {
      assert second + rest == second;
    } else {
      assert rest == "," + rest[1..];
      FindChar(second, ',', rest[1..]);
      SplitAfter(second, ",", rest[1..]);
      assert second + rest == second + "," + rest[1..];
    }
  }

  /** Without a comma it goes on at the first action of that number. */
  lemma GotoPlain(w: World, at: Position, number: string)
    requires number != "" && ',' !in number
    ensures Goto(w, at, Some(number)) == (number, 1)
  {
    FindCharAbsent(number, ',');
  }

  /** The action `j` ordinals on, as action number `n + j` of the call, is there and asks for the next one. */
  predicate Continues(w: World, n: nat, number: string, a: int, j: nat) {
    var (n, at) := (n + j, (number, a + j));
    && w.row(n, at).Some?
    && var result := DoneAction(w, n, w.row(n, at).value);
    && result.Some? && result.value.nextType == "ivr"
    && (result.value.nextArgs == None || result.value.nextArgs == Some(""))
  }

  /** How it ends at an action that does not lead to another one, or is not there. */
  predicate Ends(w: World, n: nat, at: Position, o: Outcome) {
    match w.row(n, at)
    case None => o == Done(Result("normal", None))
    case Some(row) =>
      match DoneAction(w, n, row)
      case None => o == Rejected(Failed)
      case Some(result) => result.nextType != "ivr" && o == Done(result)
  }

  /** The actions of one IVR from ordinal `a` on. */
  function Ordinals(number: string, a: int, k: nat): seq<Position> {
    seq(k, i => (number, a + i))
  }

  /** Actions that ask for the next one are executed in the order of their ordinals, up to the first that does not: the
      trace grows by just those, and the outcome is that of the last. */
  lemma {:induction false} InOrder(w: World, c: Call, number: string, a: int, k: nat, o: Outcome)
    requires c.deep + k < c.maxDeep
    requires forall j: nat :: j < k ==> Continues(w, |c.trace|, number, a, j)
    requires Ends(w, |c.trace| + k, (number, a + k), o)
    ensures var (c', o') := IvrAction(w, c, (number, a));
            var last := if w.row(|c.trace| + k, (number, a + k)).Some? then 1 else 0;
            o' == o && c'.trace == c.trace + Ordinals(number, a, k + last) && c'.deep == c.deep + k + last
    decreases k
  {
    hide DoneAction, IvrAction, Continues;
    if k == 0 {
      EndsAt(w, c, (number, a), o);
      assert Ordinals(number, a, 1) == [(number, a)] && Ordinals(number, a, 0) == [];
    } else {
      assert Continues(w, |c.trace|, number, a, 0);
      GoesOn(w, c, number, a);
      var c1, a1 := Execute(c, (number, a)), a + 1;
      forall j: nat | j < k - 1 ensures Continues(w, |c1.trace|, number, a1, j) {
        ShiftContinues(w, |c.trace|, number, a, j);
      }
      InOrder(w, c1, number, a1, k - 1, o);
      var last := if w.row(|c.trace| + k, (number, a + k)).Some? then 1 else 0;
      assert [(number, a)] + Ordinals(number, a1, k - 1 + last) == Ordinals(number, a, k + last);
    }
  }

  lemma ShiftContinues(w: World, n: nat, number: string, a: int, j: nat)
    ensures Continues(w, n, number, a, j + 1) <==> Continues(w, n + 1, number, a + 1, j)
  {
    hide DoneAction;
  }

  lemma EndsAt(w: World, c: Call, at: Position, o: Outcome)
    requires c.deep < c.maxDeep && Ends(w, |c.trace|, at, o)
    ensures IvrAction(w, c, at) == (if w.row(|c.trace|, at).Some? then Execute(c, at) else c, o)
  {
    hide DoneAction, Goto;
  }

  lemma GoesOn(w: World, c: Call, number: string, a: int)
    requires c.deep < c.maxDeep && Continues(w, |c.trace|, number, a, 0)
    ensures IvrAction(w, c, (number, a)) == IvrAction(w, Execute(c, (number, a)), (number, a + 1))
  {
    hide DoneAction;
  }

  /** An action that names "number,ordinal" is followed by the one at that position. */
  lemma Jumps(w: World, c: Call, at: Position, number: string, second: string)
    requires c.deep + 1 < c.maxDeep && ',' !in number && ',' !in second
    requires w.row(|c.trace|, at).Some?
    requires DoneAction(w, |c.trace|, w.row(|c.trace|, at).value) == Some(Result("ivr", Some(number + "," + second)))
    requires var target := (number, match w.number(second) case Some(n) => if n != 0 then n else 1 case None => 1);
             w.row(|c.trace| + 1, target).Some?
    ensures var target := (number, match w.number(second) case Some(n) => if n != 0 then n else 1 case None => 1);
            c.trace + [at, target] <= IvrAction(w, c, at).0.trace
  {
    hide DoneAction, Goto;
    GotoReads(w, at, number, second, "");
    assert second + "" == second;
    var c1 := Execute(c, at);
    var target := (number, match w.number(second) case Some(n) => if n != 0 then n else 1 case None => 1);
    FirstTraced(w, c1, target);
    assert c1.trace + [target] == c.trace + [at, target];
  }

  lemma FirstTraced(w: World, c: Call, at: Position)
    requires c.deep < c.maxDeep && w.row(|c.trace|, at).Some?
    ensures c.trace + [at] <= IvrAction(w, c, at).0.trace
  {
    hide Goto, HaltsWith;
    ActionIsStep(w, c, at);
    if Next(w, |c.trace|, at).Some? {
      Counted(w, Execute(c, at), Next(w, |c.trace|, at).value);
    }
  }

  /** What an action comes to: kinds without effect in the middle of a call end it with "todo", unknown ones end it
      normally, and the others do as the call shows; one that fails rejects. The first action of a call names the
      main IVR. */
  lemma ActionEnds(w: World, c: Call, at: Position, row: Row)
    requires c.deep < c.maxDeep && w.row(|c.trace|, at) == Some(row)
    ensures var (c', o) := IvrAction(w, c, at);
            var known := {1, 4, 6, 9, 14, 16, 20, 21, 23, 24};
            && (row.actionType in {19, 22, 25} ==> o == Done(Result("todo", None)) && c'.trace == c.trace + [at])
            && (row.actionType !in {19, 22, 25} + known ==>
                  o == Done(Result("normal", None)) && c'.trace == c.trace + [at])
            && (row.actionType in known && w.done(|c.trace|, row) == None ==>
                  o == Rejected(Failed) && c'.trace == c.trace + [at])
            && (row.actionType in known && w.done(|c.trace|, row).Some?
                && w.done(|c.trace|, row).value.nextType != "ivr" ==>
                  o == Done(w.done(|c.trace|, row).value) && c'.trace == c.trace + [at])
            && (at.0 != "" ==> c'.mainIvr == if c.mainIvr == "" then at.0 else c.mainIvr)
  {
    hide Goto;
    MainIvrStays(w, c, at);
    Counted(w, c, at);
  }

  lemma MainIvrStays(w: World, c: Call, at: Position)
    requires c.deep < c.maxDeep && w.row(|c.trace|, at).Some?
    ensures c.mainIvr == "" && at.0 != "" ==> IvrAction(w, c, at).0.mainIvr == at.0
  {
    hide Goto, HaltsWith;
    ActionIsStep(w, c, at);
    if Next(w, |c.trace|, at).Some? {
      Counted(w, Execute(c, at), Next(w, |c.trace|, at).value);
    }
  }

  /* ---- what dialling comes to ---- */

  /** A number that is no IVR and no queue: other tenants and unknown numbers are refused, an extension ends as it
      does, anything else succeeds; the run data stay as they were. */
  lemma DialsOther(w: World, c: Call, number: string)
    requires '@' in number || w.localType(|c.trace|, number) !in {Some("ivr"), Some("queue")}
    ensures var (c', o) := DialLocal(w, c, number);
            && c' == c
            && ('@' in number ==> o == Some(OtherTenant))
            && ('@' !in number ==>
                  match w.localType(|c.trace|, number)
                  case None => o == Some(UnknownNumber)
                  case Some(kind) =>
                    o == if kind == "extension" && !w.extension(|c.trace|, number) then Some(Failed) else None)
  {
    hide DialIvr, DialQueue;
  }

  /** An IVR is answered, unless the call is, and interpreted from its first action; if that asks for a local number,
      dialling goes on with it, else it ends as the interpreter does. */
  lemma DialsIvr(w: World, c: Call, number: string)
    requires '@' !in number && w.localType(|c.trace|, number) == Some("ivr")
    ensures !c.answered && !w.answers(|c.trace|) ==> DialLocal(w, c, number) == (c, Some(Failed))
    ensures c.answered || w.answers(|c.trace|) ==>
              var (c', o) := IvrAction(w, c.(answered := true), (number, 1));
              match o
              case Rejected(reason) => DialLocal(w, c, number) == (c', Some(reason))
              case Done(Result(next, args)) =>
                DialLocal(w, c, number) ==
                if next != "diallocal" then (c', None)
                else DialLocal(w, c', match args case Some(text) => text case None => "undefined")
  {
    hide IvrAction, DialQueue;
  }

  /** A queue may name an IVR position; that is interpreted, and whatever it asks for next is ignored. */
  lemma DialsQueue(w: World, c: Call, number: string)
    requires '@' !in number && w.localType(|c.trace|, number) == Some("queue")
    ensures match w.queue(|c.trace|, number)
            case None => DialLocal(w, c, number) == (c, Some(Failed))
            case Some(q) =>
              if q.gotoIvrNumber == "" then DialLocal(w, c, number) == (c, None)
              else
                var (c', o) := IvrAction(w, c, (q.gotoIvrNumber, q.gotoIvrActId));
                DialLocal(w, c, number) == (c', match o case Done(_) => None case Rejected(reason) => Some(reason))
  {
    hide IvrAction, DialIvr;
  }

  lemma {:induction false} KeepsAnswered(w: World, c: Call, at: Position)
    ensures IvrAction(w, c, at).0.answered == c.answered
    decreases c.maxDeep - c.deep
  {
    hide Goto;
    if c.deep < c.maxDeep && Next(w, |c.trace|, at).Some? {
      KeepsAnswered(w, Execute(c, at), Next(w, |c.trace|, at).value);
    }
  }

  /** Interpreting does not look at what answering would do. */
  lemma {:induction false} SameInterpreted(w: World, answers: nat -> bool, c: Call, at: Position)
    ensures IvrAction(w.(answers := answers), c, at) == IvrAction(w, c, at)
    decreases c.maxDeep - c.deep
  {
    var w' := w.(answers := answers);
    assert forall n, row :: DoneAction(w', n, row) == DoneAction(w, n, row);
    assert forall args :: Goto(w', at, args) == Goto(w, at, args);
    hide Goto, DoneAction;
    if c.deep < c.maxDeep && Next(w, |c.trace|, at).Some? {
      SameInterpreted(w, answers, Execute(c, at), Next(w, |c.trace|, at).value);
    }
  }

  /** A call is answered at most once: from an answered call on, dialling never asks for it again, whatever it would
      come to; and a call that was answered stays so. */
  lemma {:induction false} AnsweredOnce(w: World, answers: nat -> bool, c: Call, number: string)
    requires c.answered
    ensures DialLocal(w.(answers := answers), c, number) == DialLocal(w, c, number)
    ensures DialLocal(w, c, number).0.answered
    decreases c.maxDeep - c.deep
  {
    hide IvrAction;
    SameInterpreted(w, answers, c, (number, 1));
    KeepsAnswered(w, c, (number, 1));
    assert c.(answered := true) == c;
    match w.queue(|c.trace|, number) {
      case None =>
      case Some(q) =>
        SameInterpreted(w, answers, c, (q.gotoIvrNumber, q.gotoIvrActId));
        KeepsAnswered(w, c, (q.gotoIvrNumber, q.gotoIvrActId));
    }
    var (c', o) := IvrAction(w, c, (number, 1));
    if o.Done? && o.result.nextType == "diallocal" {
      AnsweredOnce(w, answers, c', Shown(o.result.nextArgs));
    }
  }
}
