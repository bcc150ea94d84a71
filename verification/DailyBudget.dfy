/**
 The daily character budget (`_consume_daily_budget` in `botparty_robot/tts/base.py`), shared by any
 number of processes through one locked state file.
 */
module DailyBudget {
  import opened Prelude

  /** Dates in the form YYYY-MM-DD compare like their day numbers. */
  datatype Record = Record(day: int, characters: nat)

  /** How `_write_budget_state` ends: it can fail before its rename or after it. */
  datatype Write = Written | FailedBeforeRename | FailedAfterRename

  datatype Outcome = Granted | Exhausted | Failed

  /** A consumer's own copy and the shared file, absent at first. */
  datatype Budget = Budget(mine: Record, file: Option<Record>)

  function Stored(b: Budget): Record { if b.file.Some? then b.file.value else b.mine }

  /** The record as of `today`: a newer day starts at zero, an older clock keeps the stored day. */
  function AsOf(r: Record, today: int): Record {
    if r.day < today then Record(today, 0) else r
  }

  datatype Consumed = Consumed(mine: Record, file: Option<Record>, outcome: Outcome)

  function Consume(budget: nat, b: Budget, today: int, count: nat, w: Write): Consumed {
    if budget == 0 then Consumed(b.mine, b.file, Exhausted)
    else
      var r := AsOf(Stored(b), today);
      var next := Record(r.day, r.characters + count);
      if r.characters + count > budget then Consumed(r, b.file, Exhausted)
      else
        match w
        case Written => Consumed(next, Some(next), Granted)
        case FailedBeforeRename => Consumed(b.mine, b.file, Failed)
        case FailedAfterRename => Consumed(b.mine, Some(next), Failed)
  }

  // ---- Runs of many consumers ----

  /** Consumers by process number, the file, and the characters granted per recorded day. */
  datatype World = World(mine: map<nat, Record>, file: Option<Record>, granted: map<int, nat>)

  /** A restarted process starts with the day its clock shows and a count of zero. */
  datatype Action = StartProcess(process: nat, today: int) | ConsumeBy(process: nat, today: int, count: nat, w: Write)

  predicate Enabled(w: World, a: Action) {
    a.ConsumeBy? ==> a.process in w.mine
  }

  function GrantedOn(w: World, day: int): nat { if day in w.granted then w.granted[day] else 0 }

  function Apply(budget: nat, w: World, a: Action): World
    requires Enabled(w, a)
  {
    match a
    case StartProcess(process, today) => w.(mine := w.mine[process := Record(today, 0)])
    case ConsumeBy(process, today, count, write) =>
      var c := Consume(budget, Budget(w.mine[process], w.file), today, count, write);
      World(w.mine[process := c.mine], c.file,
            if c.outcome.Granted? then w.granted[c.mine.day := GrantedOn(w, c.mine.day) + count] else w.granted)
  }

  ghost predicate Reachable(budget: nat, actions: seq<Action>, w: World)
    decreases |actions|
  {
    if actions == [] then w == World(map[], None, map[])
    else
      var a := actions[|actions|-1];
      exists v :: Reachable(budget, actions[..|actions|-1], v) && Enabled(v, a) && w == Apply(budget, v, a)
  }

  ghost predicate Inv(budget: nat, w: World) {
    && (w.file.None? ==> w.granted == map[] && forall p :: p in w.mine ==> w.mine[p].characters == 0)
    && (w.file.Some? ==>
          && GrantedOn(w, w.file.value.day) <= w.file.value.characters <= budget
          && (forall d :: d in w.granted ==> d <= w.file.value.day))
    && (forall d :: d in w.granted ==> w.granted[d] <= budget)
  }

  lemma ConsumeKeepsInv(budget: nat, w: World, a: Action)
    requires Inv(budget, w) && Enabled(w, a)
    ensures Inv(budget, Apply(budget, w, a))
    ensures w.file.Some? ==> Apply(budget, w, a).file.Some? && w.file.value.day <= Apply(budget, w, a).file.value.day
  {
  }

  lemma {:induction false} InvHolds(budget: nat, actions: seq<Action>, w: World)
    requires Reachable(budget, actions, w)
    ensures Inv(budget, w)
  {
    if actions != [] {
      var a := actions[|actions|-1];
      var v :| Reachable(budget, actions[..|actions|-1], v) && Enabled(v, a) && w == Apply(budget, v, a);
      InvHolds(budget, actions[..|actions|-1], v);
      ConsumeKeepsInv(budget, v, a);
    }
  }

  /** Main result: over every interleaving of consumers, restarts, clocks that step back and failed
      writes, the characters granted for any recorded day never exceed the budget. */
  lemma GrantedWithinBudget(budget: nat, actions: seq<Action>, w: World, day: int)
    requires Reachable(budget, actions, w)
    ensures GrantedOn(w, day) <= budget
  {
    InvHolds(budget, actions, w);
  }

  /** Main result: the recorded day never goes back, whatever the clocks do. */
  lemma {:induction false} RecordedDayNeverGoesBack(budget: nat, w: World, actions: seq<Action>, t: World)
    requires Inv(budget, w) && w.file.Some?
    requires Follows(budget, w, actions, t)
    ensures t.file.Some? && w.file.value.day <= t.file.value.day
    decreases |actions|
  {
    if actions != [] {
      ConsumeKeepsInv(budget, w, actions[0]);
      RecordedDayNeverGoesBack(budget, Apply(budget, w, actions[0]), actions[1..], t);
    }
  }

  ghost predicate Follows(budget: nat, w: World, actions: seq<Action>, t: World)
    decreases |actions|
  {
    if actions == [] then w == t
    else Enabled(w, actions[0]) && Follows(budget, Apply(budget, w, actions[0]), actions[1..], t)
  }

  /** Main result, both directions: a grant is made exactly when the write succeeds and the characters on
      record for the day, none on a day newer than the recorded one, leave room for the whole request. It
      is added to that day's grants and to the file; otherwise nothing is granted, and the file changes
      only when a write fails after its rename. */
  lemma GrantIff(budget: nat, w: World, process: nat, today: int, count: nat, write: Write)
    requires process in w.mine
    ensures var next := Apply(budget, w, ConsumeBy(process, today, count, write));
            var stored := if w.file.Some? then w.file.value else w.mine[process];
            var day := if stored.day < today then today else stored.day;
            var used := if stored.day < today then 0 else stored.characters;
            var fits := budget > 0 && used + count <= budget;
            if fits && write.Written? then
              && next.granted == w.granted[day := GrantedOn(w, day) + count]
              && next.file == Some(Record(day, used + count))
              && next.mine == w.mine[process := Record(day, used + count)]
            else
              && next.granted == w.granted
              && next.file == (if fits && write.FailedAfterRename? then Some(Record(day, used + count)) else w.file)
              && next.mine == w.mine[process := if budget > 0 && !fits then Record(day, used) else w.mine[process]]
  {
  }

  // ---- The mutable consumer ----

  class BudgetFile {
    var content: Option<Record>

    constructor (content: Option<Record>)
      ensures this.content == content
    {
      this.content := content;
    }
  }

  class BudgetConsumer {
    const file: BudgetFile
    const dailyBudget: nat
    var day: int
    var characters: nat

    function View(): Budget
      reads this, file
    {
      Budget(Record(day, characters), file.content)
    }

    constructor (file: BudgetFile, dailyBudget: nat, today: int)
      ensures this.file == file && this.dailyBudget == dailyBudget
      ensures View() == Budget(Record(today, 0), file.content)
    {
      this.file, this.dailyBudget := file, dailyBudget;
      day, characters := today, 0;
    }

    /** One call under the file lock. */
    method ConsumeDailyBudget(clock: int, count: nat, w: Write) returns (outcome: Outcome)
      modifies this, file
      ensures var b := View(); Consumed(b.mine, b.file, outcome) == Consume(dailyBudget, old(View()), clock, count, w)
      // A grant is exactly what was asked for, on top of what is on record for that day; a newer day has
      // nothing on record, and an older clock counts for the recorded day.
      ensures var own := Record(old(day), old(characters));
              var stored := if old(file.content).Some? then old(file.content).value else own;
              var used := if stored.day < clock then 0 else stored.characters;
              var fits := dailyBudget > 0 && used + count <= dailyBudget;
              && (outcome.Granted? <==> fits && w.Written?)
              && (outcome.Failed? <==> fits && !w.Written?)
              && (outcome.Granted? ==>
                    && characters == used + count && day == (if stored.day < clock then clock else stored.day)
                    && file.content == Some(Record(day, characters)))
              && (!fits || w.FailedBeforeRename? ==> file.content == old(file.content))
    {
      if dailyBudget == 0 {
        return Exhausted;
      }
      var today := clock;
      var storedDay, storedCount := day, characters;
      if file.content.Some? {
        storedDay, storedCount := file.content.value.day, file.content.value.characters;
      }
      if storedDay < today {
        storedDay, storedCount := today, 0;
      } else if storedDay > today {
        today := storedDay;
      }
      if storedCount + count > dailyBudget {
        day, characters := storedDay, storedCount;
        return Exhausted;
      }
      if w.FailedBeforeRename? {
        return Failed;
      }
      file.content := Some(Record(today, storedCount + count));
      if w.FailedAfterRename? {
        return Failed;
      }
      day, characters := today, storedCount + count;
      outcome := Granted;
    }
  }
}
