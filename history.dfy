/**
  The context-window builder: turns the stored history of a conversation and the
  new user text into the role-tagged turns sent to the completion engine, keeping
  the most recent turns that fit a character budget.
*/
module History {
  import opened Common
  import opened Store

  datatype Role = SystemRole | UserRole | AssistantRole

  datatype Turn = Turn(role: Role, content: string)

  /** A message document as the history query returns it; its `text` may be missing. */
  datatype StoredMessage = StoredMessage(sender: Sender, text: Option<string>)

  /** What the caller may pass; a missing field takes its default. */
  datatype Options = Options(systemPrompt: Option<string>, charBudget: Option<int>)

  const DefaultSystemPrompt: string := "You are a concise assistant. Keep answers brief."
  const DefaultCharBudget: int := 12000

  /** The fixed overhead counted for every turn on top of its length. */
  const TurnOverhead: nat := 20

  function SystemPromptOf(opts: Options): string {
    if opts.systemPrompt.Some? then opts.systemPrompt.value else DefaultSystemPrompt
  }

  function CharBudgetOf(opts: Options): int {
    if opts.charBudget.Some? then opts.charBudget.value else DefaultCharBudget
  }

  /** A "bot" message becomes an assistant turn, any other a user turn; missing text becomes "". */
  function ToTurn(m: StoredMessage): Turn {
    Turn(if m.sender == BotSender then AssistantRole else UserRole,
         if m.text.Some? then m.text.value else "")
  }

  /** The system turn, then the history in stored (chronological) order, then the new user turn. */
  function Candidates(system: string, history: seq<StoredMessage>, latest: string): seq<Turn> {
    [Turn(SystemRole, system)] + seq(|history|, i requires 0 <= i < |history| => ToTurn(history[i]))
      + [Turn(UserRole, latest)]
  }

  /** Position by position: the system turn first, stored message i at i + 1, the new user turn last. */
  lemma CandidateLayout(system: string, history: seq<StoredMessage>, latest: string)
    ensures var c := Candidates(system, history, latest);
      && |c| == |history| + 2
      && c[0] == Turn(SystemRole, system)
      && (forall i :: 0 <= i < |history| ==> c[i + 1] == ToTurn(history[i]))
      && c[|c| - 1] == Turn(UserRole, latest)
      && (forall j :: 0 < j < |c| ==> c[j].role != SystemRole)
  {
  }

  function Cost(t: Turn): nat {
    |t.content| + TurnOverhead
  }

  function SumCost(ts: seq<Turn>): nat {
    if ts == [] then 0 else Cost(ts[0]) + SumCost(ts[1..])
  }

  /** How many turns the backward walk keeps: it stops at the first turn that would exceed the budget. */
  function KeepCount(c: seq<Turn>, budget: int): (k: nat)
    ensures k <= |c|
  {
    if |c| == 0 || Cost(c[|c| - 1]) > budget then 0
    else 1 + KeepCount(c[..|c| - 1], budget - Cost(c[|c| - 1]))
  }

  /** The kept turns, in their original order. */
  function Window(c: seq<Turn>, budget: int): seq<Turn> {
    c[|c| - KeepCount(c, budget)..]
  }

  lemma {:induction false} SumCostAppend(a: seq<Turn>, b: seq<Turn>)
    ensures SumCost(a + b) == SumCost(a) + SumCost(b)
  {
    if a == [] {
      assert a + b == b;
    } else {
      assert (a + b)[0] == a[0];
      assert (a + b)[1..] == a[1..] + b;
      SumCostAppend(a[1..], b);
    }
  }

  /** Extending a suffix by one older turn adds exactly that turn's cost. */
  lemma SumCostExtend(c: seq<Turn>, k: nat)
    requires k < |c|
    ensures SumCost(c[|c| - k - 1..]) == Cost(c[|c| - k - 1]) + SumCost(c[|c| - k..])
  {
    assert c[|c| - k - 1..][1..] == c[|c| - k..];
  }

  /** A longer suffix never costs less. */
  lemma SumCostMonotone(c: seq<Turn>, j: nat, k: nat)
    requires j <= k <= |c|
    ensures SumCost(c[|c| - j..]) <= SumCost(c[|c| - k..])
  {
    assert c[|c| - k..] == c[|c| - k..|c| - j] + c[|c| - j..];
    SumCostAppend(c[|c| - k..|c| - j], c[|c| - j..]);
  }

  /** When the newest turn is kept, the window is the window of the older turns under what it leaves of the budget, plus that turn. */
  lemma WindowPeel(c: seq<Turn>, budget: int)
    requires KeepCount(c, budget) > 0
    ensures Window(c, budget) == Window(c[..|c| - 1], budget - Cost(c[|c| - 1])) + [c[|c| - 1]]
  {
    var n := |c|;
    var k := KeepCount(c, budget);
    assert c[..n - 1][n - 1 - (k - 1)..] == c[n - k..n - 1];
    assert c[n - k..] == c[n - k..n - 1] + [c[n - 1]];
  }

  /** The kept turns cost at most the budget. */
  lemma {:induction false} WindowWithinBudget(c: seq<Turn>, budget: int)
    ensures SumCost(Window(c, budget)) <= budget || Window(c, budget) == []
    ensures budget >= 0 ==> SumCost(Window(c, budget)) <= budget
  {
    if KeepCount(c, budget) > 0 {
      var last := c[|c| - 1];
      var c' := c[..|c| - 1];
      WindowPeel(c, budget);
      WindowWithinBudget(c', budget - Cost(last));
      SumCostAppend(Window(c', budget - Cost(last)), [last]);
    }
  }

  /** When a turn is dropped, adding the newest dropped turn would exceed the budget. */
  lemma {:induction false} WindowMaximal(c: seq<Turn>, budget: int)
    requires KeepCount(c, budget) < |c|
    ensures SumCost(Window(c, budget)) + Cost(c[|c| - KeepCount(c, budget) - 1]) > budget
  {
    var k := KeepCount(c, budget);
    var n := |c|;
    if k > 0 {
      var last := c[n - 1];
      var c' := c[..n - 1];
      WindowPeel(c, budget);
      WindowMaximal(c', budget - Cost(last));
      assert c'[|c'| - (k - 1) - 1] == c[n - k - 1];
      SumCostAppend(Window(c', budget - Cost(last)), [last]);
    }
  }

  /**
    The window is THE longest suffix within the budget: a count k describes a
    suffix that fits and cannot be extended exactly when k is the kept count.
  */
  lemma WindowCharacterized(c: seq<Turn>, budget: int, k: nat)
    requires budget >= 0 && k <= |c|
    ensures k == KeepCount(c, budget) <==> FitsMaximally(c, budget, k)
  {
    KeptCountFitsMaximally(c, budget);
    if FitsMaximally(c, budget, k) {
      FitsMaximallyUnique(c, budget, k, KeepCount(c, budget));
    }
  }

  /** At most one count fits maximally. */
  lemma FitsMaximallyUnique(c: seq<Turn>, budget: int, j: nat, k: nat)
    requires j <= |c| && k <= |c|
    requires FitsMaximally(c, budget, j) && FitsMaximally(c, budget, k)
    ensures j == k
  {
    if j < k {
      SumCostMonotone(c, j + 1, k);
    } else if k < j {
      SumCostMonotone(c, k + 1, j);
    }
  }

  /** The last k candidates fit the budget, and the last k + 1 (if there are that many) do not. */
  ghost predicate FitsMaximally(c: seq<Turn>, budget: int, k: nat)
    requires k <= |c|
  {
    SumCost(c[|c| - k..]) <= budget && (k == |c| || SumCost(c[|c| - k - 1..]) > budget)
  }

  lemma KeptCountFitsMaximally(c: seq<Turn>, budget: int)
    requires budget >= 0
    ensures FitsMaximally(c, budget, KeepCount(c, budget))
  {
    var k0 := KeepCount(c, budget);
    WindowWithinBudget(c, budget);
    if k0 < |c| {
      WindowMaximal(c, budget);
      SumCostExtend(c, k0);
    }
  }

  /** One step of the backward walk over the first p candidates, with b left of the budget. */
  lemma KeepCountPeel(c: seq<Turn>, p: nat, b: int)
    requires 0 < p <= |c|
    ensures Cost(c[p - 1]) > b ==> KeepCount(c[..p], b) == 0
    ensures Cost(c[p - 1]) <= b ==> KeepCount(c[..p], b) == 1 + KeepCount(c[..p - 1], b - Cost(c[p - 1]))
  {
    assert c[..p][p - 1] == c[p - 1];
    assert c[..p][..p - 1] == c[..p - 1];
  }

  /** The context the engine receives for a history and a new user text. */
  function BuiltInput(history: seq<StoredMessage>, latest: string, opts: Options): seq<Turn> {
    Window(Candidates(SystemPromptOf(opts), history, latest), CharBudgetOf(opts))
  }

  /** The new user turn is kept, as the last turn, exactly when it fits the budget on its own; otherwise nothing is. */
  lemma NewUserTurnKept(system: string, history: seq<StoredMessage>, latest: string, budget: int)
    ensures var w := Window(Candidates(system, history, latest), budget);
      && (w != [] <==> |latest| + TurnOverhead <= budget)
      && (w != [] ==> w[|w| - 1] == Turn(UserRole, latest))
  {
    CandidateLayout(system, history, latest);
  }

  /** The system turn is the oldest candidate: it is kept only when every other turn is kept too. */
  lemma SystemTurnDroppedFirst(system: string, history: seq<StoredMessage>, latest: string, budget: int)
    ensures var c := Candidates(system, history, latest);
      var w := Window(c, budget);
      (exists i :: 0 <= i < |w| && w[i].role == SystemRole) <==> w == c
  {
    var c := Candidates(system, history, latest);
    var w := Window(c, budget);
    var d := |c| - KeepCount(c, budget);
    assert w == c[d..];
    CandidateLayout(system, history, latest);
    if exists i :: 0 <= i < |w| && w[i].role == SystemRole {
      var i :| 0 <= i < |w| && w[i].role == SystemRole;
      assert c[d + i].role == SystemRole;
      assert d == 0;
      assert c[0..] == c;
    }
    if w == c {
      assert w[0].role == SystemRole;
    }
  }

  /** The turn that carries a stored message's text: assistant for the bot, user otherwise. */
  lemma RoleMapping(history: seq<StoredMessage>, i: nat, system: string, latest: string)
    requires i < |history|
    ensures var t := Candidates(system, history, latest)[i + 1];
      && (t.role == AssistantRole <==> history[i].sender == BotSender)
      && (t.role == UserRole <==> history[i].sender != BotSender)
      && (history[i].text.None? ==> t.content == "")
  {
    CandidateLayout(system, history, latest);
  }

  method Reverse<T>(s: seq<T>) returns (r: seq<T>)
    ensures |r| == |s|
    ensures forall i :: 0 <= i < |s| ==> r[i] == s[|s| - 1 - i]
  {
    r := [];
    var i := |s|;
    while i > 0
      invariant 0 <= i <= |s|
      invariant |r| == |s| - i
      invariant forall j :: 0 <= j < |r| ==> r[j] == s[|s| - 1 - j]
    {
      i := i - 1;
      r := r + [s[i]];
    }
  }

  /**
    `buildInputFromHistory`: lays out the candidates (system turn, history, new
    user turn) and trims them to the character budget.
  */
  method BuildInputFromHistory(history: seq<StoredMessage>, latestUserText: string, opts: Options)
    returns (input: seq<Turn>)
    ensures input == BuiltInput(history, latestUserText, opts)
  {
    var candidates := Candidates(SystemPromptOf(opts), history, latestUserText);
    input := TrimToBudget(candidates, CharBudgetOf(opts));
  }

  /**
    The trimming loop of `buildInputFromHistory`: walks the candidates from the
    newest backwards, adding each turn's cost to a running total, stops at the
    first turn that would take the total over the budget, and returns the kept
    turns in chronological order.
  */
  method TrimToBudget(candidates: seq<Turn>, charBudget: int) returns (kept: seq<Turn>)
    ensures kept == Window(candidates, charBudget)
  {
    var c := candidates;
    var n := |c|;
    var reversed := Reverse(c);
    var total := 0;
    var keptReversed: seq<Turn> := [];
    var j := 0;
    assert c[..n] == c;
    while j < n
      invariant 0 <= j <= n
      invariant |keptReversed| == j
      invariant forall i :: 0 <= i < j ==> keptReversed[i] == c[n - 1 - i]
      invariant KeepCount(c, charBudget) == j + KeepCount(c[..n - j], charBudget - total)
    {
      var m := reversed[j];
      var len := |m.content| + TurnOverhead;
      KeepCountPeel(c, n - j, charBudget - total);
      if total + len > charBudget {
        break;
      }
      keptReversed := keptReversed + [m];
      total := total + len;
      j := j + 1;
    }
    kept := Reverse(keptReversed);
    ReversedSuffix(c, keptReversed, kept);
  }

  /** Reversing the first j turns taken from the back of c gives back c's last j turns, in order. */
  lemma ReversedSuffix<T>(c: seq<T>, rev: seq<T>, r: seq<T>)
    requires |rev| <= |c|
    requires forall i :: 0 <= i < |rev| ==> rev[i] == c[|c| - 1 - i]
    requires |r| == |rev|
    requires forall i :: 0 <= i < |rev| ==> r[i] == rev[|rev| - 1 - i]
    ensures r == c[|c| - |rev|..]
  {
    forall i | 0 <= i < |r|
      ensures r[i] == c[|c| - |rev|..][i]
    {
      assert r[i] == rev[|rev| - 1 - i];
    }
  }

  /** Worked example: with budget 40 and one-character turns, only the new user turn fits. */
  lemma TightBudgetKeepsOnlyNewTurn()
    ensures BuiltInput([StoredMessage(UserSender, Some("H"))], "U", Options(Some("S"), Some(40)))
         == [Turn(UserRole, "U")]
  {
  }

  /** Worked example: with budget 1000 the system turn, the history and the new turn are all kept. */
  lemma AmpleBudgetKeepsAll()
    ensures BuiltInput([StoredMessage(UserSender, Some("H"))], "U", Options(Some("S"), Some(1000)))
         == [Turn(SystemRole, "S"), Turn(UserRole, "H"), Turn(UserRole, "U")]
  {
    var c := Candidates("S", [StoredMessage(UserSender, Some("H"))], "U");
    assert c == [Turn(SystemRole, "S"), Turn(UserRole, "H"), Turn(UserRole, "U")];
    assert c[..2][..1] == [Turn(SystemRole, "S")];
    assert KeepCount(c[..2][..1], 958) == 1;
    assert KeepCount(c, 1000) == 3;
  }
}
