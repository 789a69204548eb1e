/** The triage loop: a model asks for tools until it concludes with a report.
    Budgets live in code, the transcript only grows, and a report is believed only
    if what it cites was seen in this run. The model, the tools and the clock are
    adversaries here: any reply, outcome and delay is possible. */
module Triage {
  import opened Messages

  const MAX_VALIDATION_RETRIES := 2

  datatype Verdict = Verdict(mechanism: bool, eventFound: bool, explains: bool)
  {
    predicate Confident()
    {
      mechanism && eventFound && explains
    }
  }

  datatype Suspect = Suspect(resource: string, path: seq<string>, sequence: nat, verdict: Verdict)

  datatype Report = Report(suspects: seq<Suspect>, noConfidentCandidate: bool, degraded: bool)

  datatype Problem =
    | NoReport
    | UnseenResource(suspect: nat, id: string)
    | SnapshotSequence(suspect: nat)
    | UnseenSequence(suspect: nat, sequence: nat)
    | FlagMismatch

  /** Every cited resource was seen. */
  predicate CitesSeen(s: Suspect, seen: set<string>)
  {
    s.resource in seen && forall id :: id in s.path ==> id in seen
  }

  /** A claimed event is a seen change, not the initial snapshot. */
  predicate ClaimsSeen(s: Suspect, sequences: set<nat>)
  {
    s.verdict.eventFound ==> s.sequence != 0 && s.sequence in sequences
  }

  /** A report worth returning: honest references and a flag that is arithmetic. */
  predicate Honest(r: Report, seen: set<string>, sequences: set<nat>)
  {
    && (forall s :: s in r.suspects ==> CitesSeen(s, seen) && ClaimsSeen(s, sequences))
    && (r.noConfidentCandidate <==> forall s :: s in r.suspects ==> !s.verdict.Confident())
  }

  /** The problems of one suspect's citations. */
  method Citations(i: nat, s: Suspect, seen: set<string>) returns (errors: seq<Problem>)
    ensures errors == [] <==> CitesSeen(s, seen)
  {
    errors := [];
    var cited := {s.resource} + set id | id in s.path;
    var todo := cited;
    while todo != {}
      invariant todo <= cited
      invariant errors == [] <==> forall id :: id in cited - todo ==> id in seen
      decreases todo
    {
      var id :| id in todo;
      todo := todo - {id};
      if id !in seen {
        errors := errors + [UnseenResource(i, id)];
        assert id in cited - todo;
      }
    }
    assert cited - {} == cited;
  }

  /** Schema first, then referential honesty, then verdict arithmetic. */
  method ParseAndValidate(decoded: Option<Report>, seen: set<string>, sequences: set<nat>)
    returns (report: Option<Report>, errors: seq<Problem>)
    ensures report.Some? <==> decoded.Some? && Honest(decoded.value, seen, sequences)
    ensures report.Some? ==> report == decoded && errors == []
    ensures report.None? ==> errors != []
  {
    if decoded.None? {
      return None, [NoReport];
    }
    var r := decoded.value;
    errors := [];
    for i := 0 to |r.suspects|
      invariant errors == [] <==> forall s :: s in r.suspects[..i] ==> CitesSeen(s, seen)
    {
      assert r.suspects[..i + 1] == r.suspects[..i] + [r.suspects[i]];
      var more := Citations(i, r.suspects[i], seen);
      errors := errors + more;
    }
    assert r.suspects[..|r.suspects|] == r.suspects;
    var confident, claims := false, [];
    for i := 0 to |r.suspects|
      invariant claims == [] <==> forall s :: s in r.suspects[..i] ==> ClaimsSeen(s, sequences)
      invariant confident <==> exists s :: s in r.suspects[..i] && s.verdict.Confident()
    {
      var s := r.suspects[i];
      assert r.suspects[..i + 1] == r.suspects[..i] + [s];
      assert s in r.suspects[..i + 1];
      if s.verdict.eventFound && s.sequence == 0 {
        claims := claims + [SnapshotSequence(i)];
      } else if s.verdict.eventFound && s.sequence !in sequences {
        claims := claims + [UnseenSequence(i, s.sequence)];
      }
      confident := confident || s.verdict.Confident();
    }
    assert r.suspects[..|r.suspects|] == r.suspects;
    errors := errors + claims;
    if r.noConfidentCandidate == confident {
      errors := errors + [FlagMismatch];
    }
    report := if errors == [] then Some(r) else None;
  }

  // ---------------------------------------------------------- the transcript

  datatype Part = Said(text: string) | Asked(id: string, name: string, args: string) | Thought(text: string)

  datatype Block =
    | Text(text: string, marked: bool)
    | ToolResult(useId: string, content: string, isError: bool, marked: bool)

  datatype Turn = FromUser(blocks: seq<Block>) | FromModel(parts: seq<Part>)

  function Asks(parts: seq<Part>): seq<Part>
  {
    if parts == [] then []
    else Asks(parts[..|parts| - 1]) + if parts[|parts| - 1].Asked? then [parts[|parts| - 1]] else []
  }

  function Unmark(b: Block): Block
  {
    b.(marked := false)
  }

  function UnmarkBlocks(blocks: seq<Block>): seq<Block>
  {
    seq(|blocks|, i requires 0 <= i < |blocks| => Unmark(blocks[i]))
  }

  function UnmarkTurn(t: Turn): Turn
  {
    match t
    case FromUser(blocks) => FromUser(UnmarkBlocks(blocks))
    case FromModel(_) => t
  }

  /** The transcript's content: cache marks are metadata. */
  function Content(ts: seq<Turn>): seq<Turn>
  {
    seq(|ts|, i requires 0 <= i < |ts| => UnmarkTurn(ts[i]))
  }

  /** One mark in all, on the last block of the last user turn. */
  ghost predicate OneMark(ts: seq<Turn>)
  {
    && ts != [] && ts[|ts| - 1].FromUser? && ts[|ts| - 1].blocks != []
    && forall i, j :: 0 <= i < |ts| && ts[i].FromUser? && 0 <= j < |ts[i].blocks| ==>
         (ts[i].blocks[j].marked <==> i == |ts| - 1 && j == |ts[i].blocks| - 1)
  }

  /** Results answer requests one for one, in order. */
  ghost predicate Answers(blocks: seq<Block>, asks: seq<Part>)
  {
    && |blocks| == |asks|
    && forall j :: 0 <= j < |asks| ==> asks[j].Asked? && blocks[j].ToolResult? && blocks[j].useId == asks[j].id
  }

  /** A request is answered by the next turn, and a result answers the one before. */
  ghost predicate Fine(ts: seq<Turn>, k: nat)
    requires k < |ts|
  {
    match ts[k]
    case FromModel(parts) =>
      Asks(parts) != [] ==> k + 1 < |ts| && ts[k + 1].FromUser? && Answers(ts[k + 1].blocks, Asks(parts))
    case FromUser(blocks) =>
      (exists b :: b in blocks && b.ToolResult?) ==> 0 < k && ts[k - 1].FromModel? && Asks(ts[k - 1].parts) != []
  }

  ghost predicate Paired(ts: seq<Turn>)
  {
    forall k: nat :: k < |ts| ==> Fine(ts, k)
  }

  class Transcript {
    var turns: seq<Turn>

    constructor (user: string)
      ensures turns == [FromUser([Text(user, false)])]
    {
      turns := [FromUser([Text(user, false)])];
    }

    method Append(t: Turn)
      modifies this
      ensures turns == old(turns) + [t]
    {
      turns := turns + [t];
    }

    /** Move the one cache mark to the last block. No content changes. */
    method MarkBreakpoint()
      requires turns != [] && turns[|turns| - 1].FromUser? && turns[|turns| - 1].blocks != []
      modifies this
      ensures Content(turns) == Content(old(turns)) && OneMark(turns)
    {
      for i := 0 to |turns|
        invariant |turns| == |old(turns)|
        invariant forall k :: 0 <= k < |turns| ==>
                    turns[k] == if k < i then UnmarkTurn(old(turns)[k]) else old(turns)[k]
      {
        if turns[i].FromUser? {
          turns := turns[i := FromUser(UnmarkBlocks(turns[i].blocks))];
        }
      }
      var k := |turns| - 1;
      var blocks := turns[k].blocks;
      turns := turns[k := FromUser(blocks[|blocks| - 1 := blocks[|blocks| - 1].(marked := true)])];
      assert forall i :: 0 <= i < k ==> UnmarkTurn(turns[i]) == UnmarkTurn(old(turns)[i]);
      assert UnmarkBlocks(turns[k].blocks) == UnmarkBlocks(old(turns)[k].blocks);
    }
  }

  // -------------------------------------------------- the model and the tools

  datatype Usage = Usage(input: nat, output: nat, cacheRead: nat, cacheCreation: nat)
  {
    function Plus(u: Usage): Usage
    {
      Usage(input + u.input, output + u.output, cacheRead + u.cacheRead, cacheCreation + u.cacheCreation)
    }

    function Spent(): nat
    {
      input + cacheRead + cacheCreation + output
    }
  }

  /** What the outside saw of a run, in order. */
  datatype Action =
    | Requested(turns: seq<Turn>, reply: seq<Part>, billed: Usage)
    | Executed(name: string, args: string, ok: bool, payload: string)

  function Billed(log: seq<Action>): Usage
  {
    if log == [] then Usage(0, 0, 0, 0)
    else Billed(log[..|log| - 1]).Plus(if log[|log| - 1].Requested? then log[|log| - 1].billed else Usage(0, 0, 0, 0))
  }

  function Count(log: seq<Action>, executions: bool): nat
  {
    if log == [] then 0
    else Count(log[..|log| - 1], executions) + if log[|log| - 1].Executed? == executions then 1 else 0
  }

  /** The model, the tools and the clock answer anything at all. */
  class World {
    var log: seq<Action>

    constructor ()
      ensures log == []
    {
      log := [];
    }

    method Request(turns: seq<Turn>) returns (reply: seq<Part>, billed: Usage)
      modifies this
      ensures log == old(log) + [Requested(turns, reply, billed)]
    {
      reply, billed := *, *;
      log := log + [Requested(turns, reply, billed)];
    }

    method Execute(name: string, args: string) returns (ok: bool, payload: string)
      modifies this
      ensures log == old(log) + [Executed(name, args, ok, payload)]
    {
      ok, payload := *, *;
      log := log + [Executed(name, args, ok, payload)];
    }

    method Elapsed() returns (seconds: real)
    {
      seconds := *;
    }
  }

  /** How text is read: the ids and sequences it mentions. */
  datatype Reader = Reader(ids: string -> set<string>, sequences: string -> set<nat>)

  function Ids(reader: Reader, text: string): set<string>
  {
    reader.ids(text)
  }

  function Sequences(reader: Reader, text: string): set<nat>
  {
    reader.sequences(text)
  }

  /** The ids a log's successful tool results mention. */
  function IdsIn(log: seq<Action>, reader: Reader): set<string>
  {
    if log == [] then {}
    else
      var a := log[|log| - 1];
      IdsIn(log[..|log| - 1], reader) + if a.Executed? && a.ok then Ids(reader, a.payload) else {}
  }

  function SequencesIn(log: seq<Action>, reader: Reader): set<nat>
  {
    if log == [] then {}
    else
      var a := log[|log| - 1];
      SequencesIn(log[..|log| - 1], reader) + if a.Executed? && a.ok then Sequences(reader, a.payload) else {}
  }

  datatype SystemBlock = SystemBlock(text: string, breakpoint: bool)

  datatype Prompt = Prompt(system: seq<SystemBlock>, user: string)

  /** Ids citable from the prompt: the user message and the blocks after the cache
      breakpoint, never the illustrative ones before it. */
  function PromptIds(prompt: Prompt, reader: Reader): set<string>
  {
    Ids(reader, prompt.user) +
    set i, j, id | 0 <= i < j < |prompt.system| && prompt.system[i].breakpoint
      && id in Ids(reader, prompt.system[j].text) :: id
  }

  method Citable(prompt: Prompt, reader: Reader) returns (seen: set<string>)
    ensures seen == PromptIds(prompt, reader)
  {
    seen := Ids(reader, prompt.user);
    var pastBreakpoint := false;
    for k := 0 to |prompt.system|
      invariant pastBreakpoint <==> exists i :: 0 <= i < k && prompt.system[i].breakpoint
      invariant seen == Ids(reader, prompt.user) +
                        set i, j, id | 0 <= i < j < k && prompt.system[i].breakpoint
                          && id in Ids(reader, prompt.system[j].text) :: id
    {
      if pastBreakpoint {
        seen := seen + Ids(reader, prompt.system[k].text);
      }
      pastBreakpoint := pastBreakpoint || prompt.system[k].breakpoint;
    }
  }

  // ------------------------------------------------------------ discipline

  datatype Reason = ToolCalls | Tokens | Cost | WallClock

  datatype Limits = Limits(maxToolCalls: int, maxRunTokens: int, maxCost: Option<real>, maxWall: Option<real>)

  type Meter = Usage -> real

  predicate OverCost(u: Usage, limits: Limits, cost: Option<Meter>)
  {
    cost.Some? && limits.maxCost.Some? && cost.value(u) >= limits.maxCost.value
  }

  /** No turn so far opened over the cost ceiling. */
  ghost predicate Affordable(log: seq<Action>, limits: Limits, cost: Option<Meter>)
  {
    log == [] ||
    (var k := |log| - 1;
     Affordable(log[..k], limits, cost) && (log[k].Requested? ==> !OverCost(Billed(log[..k]), limits, cost)))
  }

  /** No tool ran once the tokens were spent, or in or after a turn that opened
      over the cost ceiling. */
  ghost predicate Disciplined(log: seq<Action>, limits: Limits, cost: Option<Meter>)
  {
    log == [] ||
    (var k := |log| - 1;
     Disciplined(log[..k], limits, cost)
     && (log[k].Executed? ==> Billed(log[..k]).Spent() < limits.maxRunTokens && Affordable(log[..k], limits, cost)))
  }

  lemma {:induction false} AffordableMeans(log: seq<Action>, limits: Limits, cost: Option<Meter>, j: nat)
    requires Affordable(log, limits, cost) && j < |log| && log[j].Requested?
    ensures !OverCost(Billed(log[..j]), limits, cost)
  {
    var init := log[..|log| - 1];
    if j < |init| {
      assert init[..j] == log[..j] && init[j] == log[j];
      AffordableMeans(init, limits, cost, j);
    }
  }

  lemma {:induction false} DisciplinedPrefix(log: seq<Action>, limits: Limits, cost: Option<Meter>, n: nat)
    requires Disciplined(log, limits, cost) && n <= |log|
    ensures Disciplined(log[..n], limits, cost)
    decreases |log|
  {
    if n < |log| {
      var init := log[..|log| - 1];
      assert init[..n] == log[..n];
      DisciplinedPrefix(init, limits, cost, n);
    } else {
      assert log[..n] == log;
    }
  }

  lemma LastTool(before: seq<Action>, a: Action, limits: Limits, cost: Option<Meter>)
    requires Disciplined(before + [a], limits, cost) && a.Executed?
    ensures Billed(before).Spent() < limits.maxRunTokens && Affordable(before, limits, cost)
  {
    assert (before + [a])[..|before|] == before;
  }

  /** Whenever a tool ran, the tokens billed so far were below their limit and no
      turn up to then had opened at or over the cost ceiling. */
  lemma {:induction false} DisciplineMeans(log: seq<Action>, limits: Limits, cost: Option<Meter>, i: nat, j: nat)
    requires Disciplined(log, limits, cost) && i < |log| && log[i].Executed?
    ensures Billed(log[..i]).Spent() < limits.maxRunTokens
    ensures j < i && log[j].Requested? ==> !OverCost(Billed(log[..j]), limits, cost)
  {
    DisciplinedPrefix(log, limits, cost, i + 1);
    var before := log[..i];
    assert log[..i + 1] == before + [log[i]];
    LastTool(before, log[i], limits, cost);
    if j < i && log[j].Requested? {
      assert before[..j] == log[..j] && before[j] == log[j];
      AffordableMeans(before, limits, cost, j);
    }
  }

  /** `after` is `before` and then tool calls only. */
  ghost predicate OnlyTools(before: seq<Action>, after: seq<Action>)
  {
    before <= after && forall k :: |before| <= k < |after| ==> after[k].Executed?
  }

  /** Each request extends the one before and carries one cache mark. */
  ghost predicate Grows(log: seq<Action>, content: seq<Turn>)
  {
    && (forall i :: 0 <= i < |log| && log[i].Requested? ==> OneMark(log[i].turns) && Content(log[i].turns) <= content)
    && (forall i, j :: 0 <= i < j < |log| && log[i].Requested? && log[j].Requested? ==>
         Content(log[i].turns) <= Content(log[j].turns))
  }

  lemma GrowsByRequest(log: seq<Action>, content: seq<Turn>, turns: seq<Turn>, reply: seq<Part>, billed: Usage)
    requires Grows(log, content) && Content(turns) == content && OneMark(turns)
    ensures Grows(log + [Requested(turns, reply, billed)], content)
  {
  }

  lemma GrowsByTurns(log: seq<Action>, content: seq<Turn>, more: seq<Turn>)
    requires Grows(log, content)
    ensures Grows(log, content + more)
  {
  }

  lemma {:induction false} AsksAreAsked(parts: seq<Part>)
    ensures forall p :: p in Asks(parts) ==> p.Asked? && p in parts
  {
    if parts != [] {
      AsksAreAsked(parts[..|parts| - 1]);
    }
  }

  lemma StillFine(ts: seq<Turn>, more: seq<Turn>, k: nat)
    requires k < |ts| && Fine(ts, k)
    requires k + 1 == |ts| ==> ts[k].FromUser?
    ensures Fine(ts + more, k)
  {
    assert (ts + more)[k] == ts[k];
    assert k > 0 ==> (ts + more)[k - 1] == ts[k - 1];
    assert k + 1 < |ts| ==> (ts + more)[k + 1] == ts[k + 1];
  }

  /** A plain user turn after a user turn keeps the pairing. */
  lemma PairedText(ts: seq<Turn>, text: string)
    requires Paired(ts) && ts != [] && ts[|ts| - 1].FromUser?
    ensures Paired(ts + [FromUser([Text(text, false)])])
  {
    var all := ts + [FromUser([Text(text, false)])];
    forall k: nat | k < |all|
      ensures Fine(all, k)
    {
      if k < |ts| {
        StillFine(ts, [FromUser([Text(text, false)])], k);
      } else {
        assert all[k] == FromUser([Text(text, false)]);
      }
    }
  }

  /** So does an exchange: the model's turn and what answers it. */
  lemma PairedExchange(ts: seq<Turn>, parts: seq<Part>, blocks: seq<Block>)
    requires Paired(ts) && ts != [] && ts[|ts| - 1].FromUser?
    requires if Asks(parts) == [] then forall b :: b in blocks ==> b.Text? else Answers(blocks, Asks(parts))
    ensures Paired(ts + [FromModel(parts), FromUser(blocks)])
  {
    var more := [FromModel(parts), FromUser(blocks)];
    var all := ts + more;
    assert all[|ts|] == FromModel(parts) && all[|ts| + 1] == FromUser(blocks);
    forall k: nat | k < |all|
      ensures Fine(all, k)
    {
      if k < |ts| {
        StillFine(ts, more, k);
      }
    }
  }

  lemma ContentAppend(ts: seq<Turn>, t: Turn)
    requires UnmarkTurn(t) == t
    ensures Content(ts + [t]) == Content(ts) + [t]
  {
  }

  const EXHAUSTED := "Tool budget exhausted."
  const CONCLUDE_NOW := "Budget exhausted, conclude now."

  const CONCLUDE_TURN := FromUser([Text(CONCLUDE_NOW, false)])

  ghost predicate EndsInstructed(a: Action)
  {
    a.Requested? && a.turns != [] && Content(a.turns)[|a.turns| - 1] == CONCLUDE_TURN
  }

  function Spoken(parts: seq<Part>): string
  {
    if parts == [] then ""
    else Spoken(parts[..|parts| - 1]) + if parts[|parts| - 1].Said? then parts[|parts| - 1].text else ""
  }

  /** What one run is given. */
  datatype Setup = Setup(prompt: Prompt, reader: Reader, decode: string -> Option<Report>, limits: Limits,
                         cost: Option<Meter>)

  /** What the loop keeps count of; `cut` is the log's length when a ceiling struck. */
  datatype Ledger = Ledger(usage: Usage, seen: set<string>, sequences: set<nat>, callsUsed: nat, turns: nat,
                           retries: nat, degraded: bool, cutoff: Option<Reason>, cut: nat)
  {
    predicate Concluding()
    {
      cutoff == Some(Cost) || cutoff == Some(WallClock)
    }
  }

  /** The run's own counts and sets are the log's. */
  ghost predicate Books(s: Setup, l: Ledger, log: seq<Action>)
  {
    && l.usage == Billed(log) && l.callsUsed == Count(log, true) && l.turns == Count(log, false)
    && l.seen == PromptIds(s.prompt, s.reader) + IdsIn(log, s.reader)
    && l.sequences == SequencesIn(log, s.reader)
  }

  ghost predicate Flags(s: Setup, l: Ledger, log: seq<Action>)
  {
    && (l.degraded <==> l.cutoff.Some?)
    && l.callsUsed <= NotBelowZero(s.limits.maxToolCalls) && l.retries <= MAX_VALIDATION_RETRIES
    && (if l.Concluding() then l.cut <= |log| && OnlyRequests(log, l.cut) else Affordable(log, s.limits, s.cost))
    && Disciplined(log, s.limits, s.cost)
  }

  ghost predicate OnlyRequests(log: seq<Action>, from: nat)
  {
    forall i :: from <= i < |log| ==> log[i].Requested?
  }

  /** The transcript so far, ready for the next request. */
  ghost predicate Talk(turns: seq<Turn>, log: seq<Action>)
  {
    && turns != [] && turns[|turns| - 1].FromUser? && turns[|turns| - 1].blocks != []
    && Paired(Content(turns)) && Grows(log, Content(turns))
  }

  /** The last instruction is what the first request after a ceiling ends with. */
  ghost predicate Closing(l: Ledger, turns: seq<Turn>, log: seq<Action>)
  {
    l.Concluding() ==> if l.cut < |log| then EndsInstructed(log[l.cut]) else LastIs(turns, CONCLUDE_TURN)
  }

  ghost predicate LastIs(turns: seq<Turn>, t: Turn)
  {
    turns != [] && Content(turns)[|turns| - 1] == t
  }

  function NotBelowZero(n: int): nat
  {
    if n > 0 then n else 0
  }

  /** The books after one more request or tool call. */
  function Entered(s: Setup, l: Ledger, a: Action): Ledger
  {
    match a
    case Requested(_, _, billed) => l.(usage := l.usage.Plus(billed), turns := l.turns + 1)
    case Executed(_, _, ok, payload) =>
      if ok then l.(callsUsed := l.callsUsed + 1, seen := l.seen + Ids(s.reader, payload),
                    sequences := l.sequences + Sequences(s.reader, payload))
      else l.(callsUsed := l.callsUsed + 1)
  }

  predicate Refuses(s: Setup, l: Ledger)
  {
    l.callsUsed >= s.limits.maxToolCalls || l.usage.Spent() >= s.limits.maxRunTokens || l.Concluding()
  }

  /** The flags after a refusal: the first one names its budget. */
  function Refused(s: Setup, l: Ledger): Ledger
  {
    if l.degraded then l
    else l.(degraded := true, cutoff := Some(if l.callsUsed >= s.limits.maxToolCalls then ToolCalls else Tokens))
  }

  /** Answering a request touches neither the cutoff's verdict nor the turn count. */
  predicate KeepsCourse(l: Ledger, k: Ledger)
  {
    l.Concluding() == k.Concluding() && l.cut == k.cut && l.retries == k.retries && l.turns == k.turns
  }

  lemma RefusedKeeps(s: Setup, l: Ledger, log: seq<Action>)
    requires Books(s, l, log) && Flags(s, l, log) && Refuses(s, l)
    ensures Books(s, Refused(s, l), log) && Flags(s, Refused(s, l), log)
    ensures Refused(s, l).Concluding() == l.Concluding()
  {
  }

  lemma ExecutedKeeps(s: Setup, l: Ledger, log: seq<Action>, a: Action)
    requires Books(s, l, log) && Flags(s, l, log) && !Refuses(s, l) && a.Executed?
    ensures Books(s, Entered(s, l, a), log + [a]) && Flags(s, Entered(s, l, a), log + [a])
    ensures OnlyTools(log, log + [a])
  {
    EnteredBooks(s, l, log, a);
    EnteredFlags(s, l, log, a);
  }

  lemma RequestedKeeps(s: Setup, l: Ledger, turns: seq<Turn>, marked: seq<Turn>, log: seq<Action>, reply: seq<Part>,
                       billed: Usage)
    requires Books(s, l, log) && Flags(s, l, log) && Talk(turns, log) && Closing(l, turns, log)
    requires l.Concluding() || !OverCost(l.usage, s.limits, s.cost)
    requires Content(marked) == Content(turns) && OneMark(marked)
    ensures var a := Requested(marked, reply, billed);
            var k := Entered(s, l, a);
            && Books(s, k, log + [a]) && Flags(s, k, log + [a])
            && Talk(marked, log + [a]) && Closing(k, marked, log + [a])
            && (k.Concluding() ==> k.cut < |log + [a]|)
  {
    var a := Requested(marked, reply, billed);
    EnteredBooks(s, l, log, a);
    EnteredFlags(s, l, log, a);
    RequestKeepsTalk(turns, marked, log, reply, billed);
    RequestKeepsClosing(s, l, turns, marked, log, reply, billed);
  }

  lemma EnteredBooks(s: Setup, l: Ledger, log: seq<Action>, a: Action)
    requires Books(s, l, log)
    ensures Books(s, Entered(s, l, a), log + [a])
  {
    assert (log + [a])[..|log|] == log;
  }

  lemma EnteredFlags(s: Setup, l: Ledger, log: seq<Action>, a: Action)
    requires Books(s, l, log) && Flags(s, l, log)
    requires if a.Requested? then l.Concluding() || !OverCost(l.usage, s.limits, s.cost) else !Refuses(s, l)
    ensures Flags(s, Entered(s, l, a), log + [a])
  {
    assert (log + [a])[..|log|] == log;
  }

  lemma RequestKeepsTalk(turns: seq<Turn>, marked: seq<Turn>, log: seq<Action>, reply: seq<Part>, billed: Usage)
    requires Talk(turns, log) && Content(marked) == Content(turns) && OneMark(marked)
    ensures Talk(marked, log + [Requested(marked, reply, billed)])
  {
    GrowsByRequest(log, Content(turns), marked, reply, billed);
  }

  lemma RequestKeepsClosing(s: Setup, l: Ledger, turns: seq<Turn>, marked: seq<Turn>, log: seq<Action>,
                            reply: seq<Part>, billed: Usage)
    requires Closing(l, turns, log) && Content(marked) == Content(turns) && (l.Concluding() ==> l.cut <= |log|)
    ensures Closing(Entered(s, l, Requested(marked, reply, billed)), marked, log + [Requested(marked, reply, billed)])
  {
    assert |marked| == |Content(marked)| == |turns|;
  }

  lemma ToolsKeepTalk(turns: seq<Turn>, before: seq<Action>, after: seq<Action>)
    requires Talk(turns, before) && OnlyTools(before, after)
    ensures Talk(turns, after)
  {
    GrowsByTools(before, after, Content(turns));
  }

  lemma ToolsKeepClosing(l: Ledger, k: Ledger, turns: seq<Turn>, more: seq<Turn>, before: seq<Action>,
                         after: seq<Action>)
    requires Closing(l, turns, before) && OnlyTools(before, after) && l.Concluding() == k.Concluding() && l.cut == k.cut
    requires l.Concluding() ==> l.cut < |before|
    ensures Closing(k, more, after)
  {
  }

  lemma ExchangeKeepsTalk(turns: seq<Turn>, log: seq<Action>, reply: seq<Part>, blocks: seq<Block>)
    requires Talk(turns, log) && blocks != [] && UnmarkBlocks(blocks) == blocks
    requires if Asks(reply) == [] then forall b :: b in blocks ==> b.Text? else Answers(blocks, Asks(reply))
    ensures Talk(turns + [FromModel(reply)] + [FromUser(blocks)], log)
    ensures Content(turns) <= Content(turns + [FromModel(reply)] + [FromUser(blocks)])
  {
    var before, more := Content(turns), [FromModel(reply), FromUser(blocks)];
    PairedExchange(before, reply, blocks);
    GrowsByTurns(log, before, more);
    ContentAppend(turns, FromModel(reply));
    ContentAppend(turns + [FromModel(reply)], FromUser(blocks));
    assert Content(turns + [FromModel(reply)] + [FromUser(blocks)]) == before + more;
  }

  lemma InstructionKeepsTalk(turns: seq<Turn>, log: seq<Action>)
    requires Talk(turns, log)
    ensures Talk(turns + [CONCLUDE_TURN], log) && LastIs(turns + [CONCLUDE_TURN], CONCLUDE_TURN)
    ensures Content(turns) <= Content(turns + [CONCLUDE_TURN])
  {
    var before := Content(turns);
    assert UnmarkBlocks(CONCLUDE_TURN.blocks) == CONCLUDE_TURN.blocks;
    ContentAppend(turns, CONCLUDE_TURN);
    PairedText(before, CONCLUDE_NOW);
    GrowsByTurns(log, before, [CONCLUDE_TURN]);
  }

  class Triager {
    const setup: Setup
    const world: World
    const transcript: Transcript
    var ledger: Ledger

    ghost predicate Sound()
      reads this, world
    {
      Books(setup, ledger, world.log) && Flags(setup, ledger, world.log)
    }

    ghost predicate Valid()
      reads this, world, transcript
    {
      Sound() && Talk(transcript.turns, world.log) && Closing(ledger, transcript.turns, world.log)
    }

    constructor (setup: Setup)
      ensures Valid() && fresh(world) && fresh(transcript) && this.setup == setup
      ensures ledger.turns == 0 && ledger.cutoff == None
    {
      this.setup := setup;
      world := new World();
      transcript := new Transcript(setup.prompt.user);
      ledger := Ledger(Usage(0, 0, 0, 0), {}, {}, 0, 0, 0, false, None, 0);
      new;
      var seen := Citable(setup.prompt, setup.reader);
      ledger := ledger.(seen := seen);
      assert transcript.turns == [FromUser([Text(setup.prompt.user, false)])];
    }

    /** A breached ceiling ends the investigation with one last instruction. */
    method CheckCeilings()
      requires Valid() && !ledger.Concluding()
      modifies this, transcript
      ensures Valid() && ledger == old(ledger).(degraded := ledger.degraded, cutoff := ledger.cutoff, cut := ledger.cut)
      ensures ledger.Concluding() || !OverCost(ledger.usage, setup.limits, setup.cost)
      ensures Content(old(transcript.turns)) <= Content(transcript.turns)
    {
      var breach: Option<Reason> := None;
      if OverCost(ledger.usage, setup.limits, setup.cost) {
        breach := Some(Cost);
      } else if setup.limits.maxWall.Some? {
        var elapsed := world.Elapsed();
        if elapsed >= setup.limits.maxWall.value {
          breach := Some(WallClock);
        }
      }
      if breach.Some? {
        ledger := ledger.(degraded := true, cutoff := breach, cut := |world.log|);
        InstructionKeepsTalk(transcript.turns, world.log);
        transcript.Append(CONCLUDE_TURN);
      }
    }

    /** Ask the model once more, and bill what it cost. */
    method RequestOnce() returns (reply: seq<Part>)
      requires Valid() && (ledger.Concluding() || !OverCost(ledger.usage, setup.limits, setup.cost))
      modifies this, world, transcript
      ensures Valid() && (ledger.Concluding() ==> ledger.cut < |world.log|)
      ensures ledger == old(ledger).(usage := ledger.usage, turns := old(ledger.turns) + 1)
      ensures Content(transcript.turns) == Content(old(transcript.turns))
    {
      ghost var log, turns := world.log, transcript.turns;
      transcript.MarkBreakpoint();
      var billed;
      reply, billed := world.Request(transcript.turns);
      RequestedKeeps(setup, ledger, turns, transcript.turns, log, reply, billed);
      ledger := ledger.(usage := ledger.usage.Plus(billed), turns := ledger.turns + 1);
    }

    /** Run a request while the budgets allow, else refuse it. */
    method AnswerOne(ask: Part) returns (result: Block)
      requires ask.Asked? && Sound()
      modifies this, world
      ensures Sound() && OnlyTools(old(world.log), world.log)
      ensures KeepsCourse(old(ledger), ledger)
      ensures result.ToolResult? && result.useId == ask.id && !result.marked
      ensures if Refuses(setup, old(ledger))
              then world.log == old(world.log) && result.content == EXHAUSTED && ledger.degraded
              else |world.log| == |old(world.log)| + 1
    {
      if Refuses(setup, ledger) {
        result := Refuse(ask);
      } else {
        ghost var a;
        result, a := ExecuteOne(ask);
      }
    }

    method Refuse(ask: Part) returns (result: Block)
      requires ask.Asked? && Sound() && Refuses(setup, ledger)
      modifies this
      ensures Sound() && ledger == Refused(setup, old(ledger)) && KeepsCourse(old(ledger), ledger)
      ensures result == ToolResult(ask.id, EXHAUSTED, true, false)
    {
      RefusedKeeps(setup, ledger, world.log);
      if !ledger.degraded {
        ledger := ledger.(cutoff := Some(if ledger.callsUsed >= setup.limits.maxToolCalls then ToolCalls else Tokens));
      }
      ledger := ledger.(degraded := true);
      result := ToolResult(ask.id, EXHAUSTED, true, false);
    }

    method ExecuteOne(ask: Part) returns (result: Block, ghost a: Action)
      requires ask.Asked? && Sound() && !Refuses(setup, ledger)
      modifies this, world
      ensures Sound() && a.Executed? && world.log == old(world.log) + [a] && OnlyTools(old(world.log), world.log)
      ensures ledger == Entered(setup, old(ledger), a) && KeepsCourse(old(ledger), ledger)
      ensures result.ToolResult? && result.useId == ask.id && !result.marked
    {
      ghost var log := world.log;
      var ok, payload := world.Execute(ask.name, ask.args);
      a := Executed(ask.name, ask.args, ok, payload);
      ExecutedKeeps(setup, ledger, log, a);
      if ok {
        ledger := ledger.(callsUsed := ledger.callsUsed + 1, seen := ledger.seen + Ids(setup.reader, payload),
                          sequences := ledger.sequences + Sequences(setup.reader, payload));
      } else {
        ledger := ledger.(callsUsed := ledger.callsUsed + 1);
      }
      result := ToolResult(ask.id, payload, !ok, false);
    }

    /** Answer every request in order. */
    method AnswerTools(asks: seq<Part>) returns (results: seq<Block>)
      requires Sound() && forall p :: p in asks ==> p.Asked?
      modifies this, world
      ensures Sound() && Answers(results, asks)
      ensures UnmarkBlocks(results) == results && OnlyTools(old(world.log), world.log)
      ensures KeepsCourse(old(ledger), ledger)
    {
      results := [];
      for i := 0 to |asks|
        invariant Sound() && OnlyTools(old(world.log), world.log)
        invariant KeepsCourse(old(ledger), ledger)
        invariant |results| == i && forall j :: 0 <= j < i ==>
                    results[j].ToolResult? && results[j].useId == asks[j].id && !results[j].marked
      {
        assert asks[i] in asks;
        var result := AnswerOne(asks[i]);
        results := results + [result];
      }
    }

    method Exchange(reply: seq<Part>, blocks: seq<Block>)
      requires Talk(transcript.turns, world.log) && blocks != [] && UnmarkBlocks(blocks) == blocks
      requires if Asks(reply) == [] then forall b :: b in blocks ==> b.Text? else Answers(blocks, Asks(reply))
      modifies transcript
      ensures Talk(transcript.turns, world.log) && Content(old(transcript.turns)) <= Content(transcript.turns)
    {
      ExchangeKeepsTalk(transcript.turns, world.log, reply, blocks);
      transcript.Append(FromModel(reply));
      transcript.Append(FromUser(blocks));
    }

    /** The model asked for tools: answer them all and hand the answers back. */
    method UseTools(reply: seq<Part>)
      requires Valid() && Asks(reply) != [] && (ledger.Concluding() ==> ledger.cut < |world.log|)
      modifies this, world, transcript
      ensures Valid() && KeepsCourse(old(ledger), ledger) && old(world.log) <= world.log
      ensures Content(old(transcript.turns)) <= Content(transcript.turns)
    {
      ghost var l, log, turns := ledger, world.log, transcript.turns;
      AsksAreAsked(reply);
      var results := AnswerTools(Asks(reply));
      ToolsKeepTalk(turns, log, world.log);
      Exchange(reply, results);
      ToolsKeepClosing(l, ledger, turns, transcript.turns, log, world.log);
    }

    /** The model spoke: a valid report ends the run, and so does the last correction. */
    method Judge(reply: seq<Part>) returns (over: bool, report: Option<Report>)
      requires Valid() && Asks(reply) == [] && (ledger.Concluding() ==> ledger.cut < |world.log|)
      modifies this, transcript
      ensures Valid() && ledger.turns == old(ledger.turns)
      ensures ledger.Concluding() == old(ledger.Concluding()) && ledger.cut == old(ledger.cut)
      ensures Content(old(transcript.turns)) <= Content(transcript.turns)
      ensures report.Some? ==> over && Honest(report.value, ledger.seen, ledger.sequences)
      ensures over && report.None? ==> ledger.retries == MAX_VALIDATION_RETRIES
    {
      ghost var l, turns := ledger, transcript.turns;
      var errors;
      report, errors := ParseAndValidate(setup.decode(Spoken(reply)), ledger.seen, ledger.sequences);
      over := report.Some? || ledger.retries >= MAX_VALIDATION_RETRIES;
      if !over {
        ledger := ledger.(retries := ledger.retries + 1);
        Exchange(reply, [Text(FEEDBACK, false)]);
        ToolsKeepClosing(l, ledger, turns, transcript.turns, world.log, world.log);
      }
    }

    /** One turn of the loop. */
    method Turn() returns (over: bool, report: Option<Report>)
      requires Valid()
      modifies this, world, transcript
      ensures Valid() && ledger.turns == old(ledger.turns) + 1 && (ledger.Concluding() ==> ledger.cut < |world.log|)
      ensures Content(old(transcript.turns)) <= Content(transcript.turns)
      ensures report.Some? ==> over && Honest(report.value, ledger.seen, ledger.sequences)
      ensures over && report.None? ==> ledger.retries == MAX_VALIDATION_RETRIES
    {
      if !ledger.Concluding() {
        CheckCeilings();
      }
      var reply := RequestOnce();
      if Asks(reply) != [] {
        UseTools(reply);
        return false, None;
      }
      over, report := Judge(reply);
    }
  }

  const FEEDBACK := "The report failed validation."

  lemma GrowsByTools(before: seq<Action>, after: seq<Action>, content: seq<Turn>)
    requires Grows(before, content) && OnlyTools(before, after)
    ensures Grows(after, content)
  {
    assert forall i :: 0 <= i < |after| && after[i].Requested? ==> i < |before| && after[i] == before[i];
  }

  datatype RunResult = RunResult(report: Option<Report>, degraded: bool, toolCalls: nat, turns: nat,
                                 cutoff: Option<Reason>)

  /** For every model, tool and clock: the run ends within its turn cap, executes no
      more tools than allowed, answers each request once, only ever appends, and
      returns a report only if what it cites was seen in this very run. A cost
      ceiling without its meter is refused. */
  method RunTriage(setup: Setup) returns (res: Option<RunResult>, run: Triager)
    ensures fresh(run) && fresh(run.world) && fresh(run.transcript)
    ensures res.None? <==> setup.limits.maxCost.None? != setup.cost.None?
    ensures res.Some? ==> Concluded(setup, res.value, run.ledger, run.world.log)
    ensures Disciplined(run.world.log, setup.limits, setup.cost)
    ensures Paired(Content(run.transcript.turns)) && Grows(run.world.log, Content(run.transcript.turns))
  {
    run := new Triager(setup);
    if setup.limits.maxCost.None? != setup.cost.None? {
      return None, run;
    }
    var turnCap := setup.limits.maxToolCalls + MAX_VALIDATION_RETRIES + 5;
    var report: Option<Report> := None;
    while run.ledger.turns < turnCap
      invariant run.Valid() && report.None? && run.setup == setup
      invariant fresh(run) && fresh(run.world) && fresh(run.transcript)
      invariant run.ledger.turns <= NotBelowZero(turnCap)
      invariant run.ledger.Concluding() ==> run.ledger.cut < |run.world.log|
      decreases turnCap - run.ledger.turns
    {
      var over;
      over, report := run.Turn();
      if over {
        break;
      }
    }
    var l := run.ledger;
    res :=
      Some(RunResult(report, l.degraded || (report.Some? && report.value.degraded), l.callsUsed, l.turns, l.cutoff));
  }

  /** The result against the log of everything asked and executed in this run. */
  ghost predicate Concluded(setup: Setup, r: RunResult, l: Ledger, log: seq<Action>)
  {
    && r.turns == Count(log, false) <= NotBelowZero(setup.limits.maxToolCalls + MAX_VALIDATION_RETRIES + 5)
    && r.toolCalls == Count(log, true) <= NotBelowZero(setup.limits.maxToolCalls)
    && (r.cutoff == Some(Cost) || r.cutoff == Some(WallClock) ==>
          l.cut < |log| && EndsInstructed(log[l.cut]) && OnlyRequests(log, l.cut))
    && (r.report.Some? ==>
          Honest(r.report.value, PromptIds(setup.prompt, setup.reader) + IdsIn(log, setup.reader),
                 SequencesIn(log, setup.reader)))
    && (r.report.None? ==>
          r.turns >= setup.limits.maxToolCalls + MAX_VALIDATION_RETRIES + 5 || l.retries == MAX_VALIDATION_RETRIES)
    && (r.degraded <==> r.cutoff.Some? || (r.report.Some? && r.report.value.degraded))
  }
}
