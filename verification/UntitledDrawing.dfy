/**
 `Untitled N`: each loop tries one name after another against a folder whose
 create is atomic and never overwrites (src/app/newDrawing.ts). Any number of
 windows run the loop at once; each attempt is one step.
 */
module UntitledDrawing {
  import opened Options
  import opened Text

  const ATTEMPTS: nat := 1000

  /** The name tried at an attempt. */
  function Name(base: string, attempt: nat): string {
    if attempt == 1 then base else base + " " + Decimal(attempt)
  }

  /** The spelling of a number without leading zeros. */
  ghost predicate Numeral(s: string, n: nat) {
    AllDigits(s) && s != [] && (|s| > 1 ==> s[0] != '0') && Number(s) == n
  }

  lemma {:induction false} DecimalIsNumeral(n: nat)
    ensures Numeral(Decimal(n), n)
    ensures n > 0 ==> Decimal(n)[0] != '0'
  {
    NumberOfDecimal(n);
    if n >= 10 {
      DecimalIsNumeral(n / 10);
    }
  }

  /** The first name is the base alone; each later one adds a space and the number of the attempt. */
  lemma NameIs(base: string, attempt: nat)
    requires attempt >= 1
    ensures attempt == 1 ==> Name(base, attempt) == base
    ensures attempt > 1 ==> base + " " <= Name(base, attempt) && Numeral(Name(base, attempt)[|base| + 1..], attempt)
  {
    if attempt > 1 {
      DecimalIsNumeral(attempt);
      assert Name(base, attempt)[|base| + 1..] == Decimal(attempt);
    }
  }

  lemma NamesDiffer(base: string, i: nat, j: nat)
    requires i >= 1 && j >= 1 && Name(base, i) == Name(base, j)
    ensures i == j
  {
    if i != 1 && j != 1 {
      var prefix := base + " ";
      assert Decimal(i) == Name(base, i)[|prefix|..] == Name(base, j)[|prefix|..] == Decimal(j);
      NumberOfDecimal(i);
      NumberOfDecimal(j);
    }
  }

  /** The first `n` names. */
  function Names(base: string, n: nat): set<string> {
    set k | 1 <= k <= n :: Name(base, k)
  }

  lemma {:induction false} NamesCount(base: string, n: nat)
    ensures |Names(base, n)| == n
  {
    if n > 0 {
      NamesCount(base, n - 1);
      forall k | 1 <= k <= n - 1
        ensures Name(base, k) != Name(base, n)
      {
        if Name(base, k) == Name(base, n) {
          NamesDiffer(base, k, n);
        }
      }
      assert Names(base, n) == Names(base, n - 1) + {Name(base, n)};
    }
  }

  // ---------------------------------------------------------------- one loop alone

  datatype Answer = Created(number: nat) | NameConflict | OtherError(attempt: nat)

  class Folder {
    var names: set<string>

    constructor (names: set<string>)
      ensures this.names == names
    {
      this.names := names;
    }

    /** `workspace_entry_create`, as one step that leaves taken names alone. */
    method Create(name: string) returns (created: bool)
      modifies this
      ensures created == (name !in old(names))
      ensures names == old(names) + {name}
    {
      created := name !in names;
      names := names + {name};
    }
  }

  /**
   The loop, when attempts in `broken` fail for another reason. Alone it takes the
   least free number; it reports a conflict only when all its names are taken.
   */
  method CreateUntitled(folder: Folder, base: string, broken: set<nat>) returns (r: Answer)
    modifies folder
    ensures r.Created? ==>
              && 1 <= r.number <= ATTEMPTS && Name(base, r.number) !in old(folder.names)
              && Names(base, r.number - 1) <= old(folder.names)
              && folder.names == old(folder.names) + {Name(base, r.number)}
              && (forall k :: 1 <= k <= r.number ==> k !in broken)
    ensures r.NameConflict? ==> Names(base, ATTEMPTS) <= old(folder.names) && folder.names == old(folder.names)
    ensures r.OtherError? ==>
              && 1 <= r.attempt <= ATTEMPTS && r.attempt in broken && folder.names == old(folder.names)
              && Names(base, r.attempt - 1) <= old(folder.names)
  {
    var attempt := 1;
    while true
      invariant 1 <= attempt <= ATTEMPTS
      invariant Names(base, attempt - 1) <= folder.names == old(folder.names)
      invariant forall k :: 1 <= k < attempt ==> k !in broken
      decreases ATTEMPTS - attempt
    {
      var name := Name(base, attempt);
      if attempt in broken {
        return OtherError(attempt);
      }
      var created := folder.Create(name);
      if created {
        return Created(attempt);
      }
      assert folder.names == old(folder.names);
      assert Names(base, attempt) == Names(base, attempt - 1) + {name};
      if attempt >= ATTEMPTS {
        return NameConflict;
      }
      attempt := attempt + 1;
    }
  }

  // ---------------------------------------------------------------- many loops at once

  type Creator = nat

  datatype Progress = Trying(attempt: nat) | Ended(answer: Answer)

  /** The folder, every loop's progress, and the names others put into the folder meanwhile. */
  datatype State = State(folder: set<string>, creators: map<Creator, Progress>, others: set<string>)

  datatype Step =
    | Start(creator: Creator)
    | Try(creator: Creator, broken: bool)
    | Outside(name: string)

  predicate Possible(s: State, step: Step) {
    match step
    case Start(creator) => creator !in s.creators
    case Try(creator, _) => creator in s.creators && s.creators[creator].Trying?
    case Outside(name) => name !in s.folder
  }

  function Next(base: string, s: State, step: Step): State
    requires Possible(s, step)
  {
    match step
    case Start(creator) => s.(creators := s.creators[creator := Trying(1)])
    case Outside(name) => s.(folder := s.folder + {name}, others := s.others + {name})
    case Try(creator, broken) =>
      var attempt := s.creators[creator].attempt;
      var name := Name(base, attempt);
      if broken then s.(creators := s.creators[creator := Ended(OtherError(attempt))])
      else if name !in s.folder then
        s.(folder := s.folder + {name}, creators := s.creators[creator := Ended(Created(attempt))])
      else if attempt >= ATTEMPTS then s.(creators := s.creators[creator := Ended(NameConflict)])
      else s.(creators := s.creators[creator := Trying(attempt + 1)])
  }

  predicate IsRun(base: string, s: State, steps: seq<Step>)
    decreases |steps|
  {
    steps != [] ==> Possible(s, steps[0]) && IsRun(base, Next(base, s, steps[0]), steps[1..])
  }

  function Run(base: string, s: State, steps: seq<Step>): State
    requires IsRun(base, s, steps)
    decreases |steps|
  {
    if steps == [] then s else Run(base, Next(base, s, steps[0]), steps[1..])
  }

  function Begin(folder: set<string>): State {
    State(folder, map[], {})
  }

  predicate Succeeded(p: Progress) {
    p.Ended? && p.answer.Created?
  }

  /** The numbers the loops have taken. */
  function Taken(creators: map<Creator, Progress>): set<nat> {
    set c | c in creators && Succeeded(creators[c]) :: creators[c].answer.number
  }

  function NamesOf(base: string, numbers: set<nat>): set<string> {
    set n | n in numbers :: Name(base, n)
  }

  /** No two loops took one number, and none took a name that was there or that others added. */
  ghost predicate Fresh(base: string, initial: set<string>, s: State) {
    && (forall c, d :: c in s.creators && d in s.creators && Succeeded(s.creators[c]) && Succeeded(s.creators[d]) ==>
          s.creators[c].answer.number == s.creators[d].answer.number ==> c == d)
    && (forall n :: n in Taken(s.creators) ==> 1 <= n <= ATTEMPTS && Name(base, n) !in initial + s.others)
    && s.folder == initial + s.others + NamesOf(base, Taken(s.creators))
  }

  /** Whoever passed a number found its name in the folder. */
  ghost predicate Passed(base: string, folder: set<string>, p: Progress) {
    match p
    case Trying(attempt) => 1 <= attempt <= ATTEMPTS && Names(base, attempt - 1) <= folder
    case Ended(Created(n)) => 1 <= n <= ATTEMPTS && Names(base, n) <= folder
    case Ended(NameConflict) => Names(base, ATTEMPTS) <= folder
    case Ended(OtherError(_)) => true
  }

  ghost predicate Inv(base: string, initial: set<string>, s: State) {
    && Fresh(base, initial, s)
    && forall c :: c in s.creators ==> Passed(base, s.folder, s.creators[c])
  }

  lemma NotTaken(creators: map<Creator, Progress>, c: Creator, p: Progress)
    requires !Succeeded(p) && (c in creators ==> !Succeeded(creators[c]))
    ensures Taken(creators[c := p]) == Taken(creators)
  {
    var after := creators[c := p];
    forall n | n in Taken(creators)
      ensures n in Taken(after)
    {
      var d :| d in creators && Succeeded(creators[d]) && creators[d].answer.number == n;
      assert after[d] == creators[d];
    }
  }

  lemma TakenMore(creators: map<Creator, Progress>, c: Creator, n: nat)
    requires c in creators && !Succeeded(creators[c])
    ensures Taken(creators[c := Ended(Created(n))]) == Taken(creators) + {n}
  {
    var after := creators[c := Ended(Created(n))];
    assert Succeeded(after[c]) && after[c].answer.number == n;
    forall m | m in Taken(creators)
      ensures m in Taken(after)
    {
      var d :| d in creators && Succeeded(creators[d]) && creators[d].answer.number == m;
      assert after[d] == creators[d];
    }
  }

  lemma UnsuccessfulKeepsInv(base: string, initial: set<string>, s: State, c: Creator, p: Progress)
    requires Inv(base, initial, s) && !Succeeded(p) && Passed(base, s.folder, p)
    requires c in s.creators ==> !Succeeded(s.creators[c])
    ensures Inv(base, initial, s.(creators := s.creators[c := p]))
  {
    NotTaken(s.creators, c, p);
  }

  lemma SuccessKeepsInv(base: string, initial: set<string>, s: State, c: Creator)
    requires Inv(base, initial, s) && c in s.creators && s.creators[c].Trying?
    requires Name(base, s.creators[c].attempt) !in s.folder
    ensures Inv(base, initial, Next(base, s, Try(c, false)))
  {
    var n := s.creators[c].attempt;
    var t := Next(base, s, Try(c, false));
    assert Passed(base, s.folder, s.creators[c]);
    TakenMore(s.creators, c, n);
    assert NamesOf(base, Taken(t.creators)) == NamesOf(base, Taken(s.creators)) + {Name(base, n)};
    forall d | d in s.creators && Succeeded(s.creators[d])
      ensures s.creators[d].answer.number != n
    {
      assert s.creators[d].answer.number in Taken(s.creators);
      assert Name(base, s.creators[d].answer.number) in s.folder;
    }
    assert Names(base, n) == Names(base, n - 1) + {Name(base, n)};
    forall d | d in t.creators
      ensures Passed(base, t.folder, t.creators[d])
    {
      if d != c {
        assert Passed(base, s.folder, s.creators[d]);
      }
    }
  }

  lemma OutsideKeepsInv(base: string, initial: set<string>, s: State, name: string)
    requires Inv(base, initial, s) && name !in s.folder
    ensures Inv(base, initial, Next(base, s, Outside(name)))
  {
    var t := Next(base, s, Outside(name));
    forall n | n in Taken(s.creators)
      ensures Name(base, n) != name
    {
      assert Name(base, n) in NamesOf(base, Taken(s.creators));
    }
    forall d | d in t.creators
      ensures Passed(base, t.folder, t.creators[d])
    {
      assert Passed(base, s.folder, s.creators[d]);
    }
  }

  lemma TryKeepsInv(base: string, initial: set<string>, s: State, c: Creator, broken: bool)
    requires Inv(base, initial, s) && c in s.creators && s.creators[c].Trying?
    ensures Inv(base, initial, Next(base, s, Try(c, broken)))
  {
    var attempt := s.creators[c].attempt;
    var name := Name(base, attempt);
    assert Passed(base, s.folder, s.creators[c]);
    if broken {
      UnsuccessfulKeepsInv(base, initial, s, c, Ended(OtherError(attempt)));
    } else if name !in s.folder {
      SuccessKeepsInv(base, initial, s, c);
    } else {
      assert Names(base, attempt) == Names(base, attempt - 1) + {name};
      UnsuccessfulKeepsInv(base, initial, s, c, if attempt >= ATTEMPTS then Ended(NameConflict) else Trying(attempt + 1));
    }
  }

  lemma StepKeepsInv(base: string, initial: set<string>, s: State, step: Step)
    requires Inv(base, initial, s) && Possible(s, step)
    ensures Inv(base, initial, Next(base, s, step))
  {
    match step
    case Start(c) =>
      assert Names(base, 0) == {};
      UnsuccessfulKeepsInv(base, initial, s, c, Trying(1));
    case Outside(name) => OutsideKeepsInv(base, initial, s, name);
    case Try(c, broken) => TryKeepsInv(base, initial, s, c, broken);
  }

  lemma {:induction false} RunKeepsInv(base: string, initial: set<string>, s: State, steps: seq<Step>)
    requires Inv(base, initial, s) && IsRun(base, s, steps)
    ensures Inv(base, initial, Run(base, s, steps))
    decreases |steps|
  {
    if steps != [] {
      StepKeepsInv(base, initial, s, steps[0]);
      RunKeepsInv(base, initial, Next(base, s, steps[0]), steps[1..]);
    }
  }

  lemma BeginHolds(base: string, initial: set<string>)
    ensures Inv(base, initial, Begin(initial))
  {
    assert Taken(map[]) == {};
    assert NamesOf(base, {}) == {};
  }

  // ---------------------------------------------------------------- main results

  /** How many attempts the loop has made. */
  function AttemptsMade(steps: seq<Step>, c: Creator): nat
    decreases |steps|
  {
    if steps == [] then 0
    else AttemptsMade(steps[..|steps| - 1], c) + if steps[|steps| - 1].Try? && steps[|steps| - 1].creator == c then 1 else 0
  }

  /** Where a loop stands, by the attempts it has made: it stops at another failure, and there only with that error. */
  ghost predicate Follows(s: State, past: seq<Step>, c: Creator) {
    && (c in s.creators <==> Start(c) in past)
    && (c !in s.creators ==> AttemptsMade(past, c) == 0)
    && (Try(c, true) in past <==> c in s.creators && s.creators[c].Ended? && s.creators[c].answer.OtherError?)
    && (c in s.creators ==>
          match s.creators[c]
          case Trying(attempt) => attempt == AttemptsMade(past, c) + 1
          case Ended(Created(n)) => n == AttemptsMade(past, c)
          case Ended(OtherError(n)) => n == AttemptsMade(past, c)
          case Ended(NameConflict) => AttemptsMade(past, c) == ATTEMPTS)
  }

  lemma StepFollows(base: string, s: State, past: seq<Step>, step: Step, c: Creator)
    requires Possible(s, step) && Follows(s, past, c)
    requires c in s.creators && s.creators[c].Trying? ==> s.creators[c].attempt <= ATTEMPTS
    ensures Follows(Next(base, s, step), past + [step], c)
  {
    var now := past + [step];
    assert now[|now| - 1] == step && now[..|now| - 1] == past;
    assert forall x :: x in now <==> x in past || x == step;
  }

  lemma {:induction false} RunFollows(base: string, initial: set<string>, s: State, past: seq<Step>, steps: seq<Step>, c: Creator)
    requires Inv(base, initial, s) && IsRun(base, s, steps) && Follows(s, past, c)
    ensures Follows(Run(base, s, steps), past + steps, c)
    decreases |steps|
  {
    if steps == [] {
      assert past + steps == past;
    } else {
      if c in s.creators {
        assert Passed(base, s.folder, s.creators[c]);
      }
      StepFollows(base, s, past, steps[0], c);
      StepKeepsInv(base, initial, s, steps[0]);
      RunFollows(base, initial, Next(base, s, steps[0]), past + [steps[0]], steps[1..], c);
      assert past + [steps[0]] + steps[1..] == past + steps;
    }
  }

  /** In every interleaving a loop's answer is the number of attempts it made, and other errors end it at once. */
  lemma AnswersFollowTheSteps(base: string, initial: set<string>, steps: seq<Step>, c: Creator)
    requires IsRun(base, Begin(initial), steps)
    ensures Follows(Run(base, Begin(initial), steps), steps, c)
  {
    BeginHolds(base, initial);
    RunFollows(base, initial, Begin(initial), [], steps, c);
    assert [] + steps == steps;
  }

  /** In every interleaving the loops that finish have pairwise distinct names, none of which was there before. */
  lemma FinishedNamesAreDistinct(base: string, initial: set<string>, steps: seq<Step>, c: Creator, d: Creator)
    requires IsRun(base, Begin(initial), steps) && c != d
    requires
      var s := Run(base, Begin(initial), steps);
      c in s.creators && d in s.creators && Succeeded(s.creators[c]) && Succeeded(s.creators[d])
    ensures
      var s := Run(base, Begin(initial), steps);
      && Name(base, s.creators[c].answer.number) != Name(base, s.creators[d].answer.number)
      && Name(base, s.creators[c].answer.number) in s.folder - initial - s.others
  {
    BeginHolds(base, initial);
    RunKeepsInv(base, initial, Begin(initial), steps);
    var s := Run(base, Begin(initial), steps);
    var m, n := s.creators[c].answer.number, s.creators[d].answer.number;
    assert m in Taken(s.creators) && n in Taken(s.creators);
    if Name(base, m) == Name(base, n) {
      NamesDiffer(base, m, n);
    }
  }

  /** A set of creators takes at most as many numbers as it has members. */
  lemma {:induction false} TakenAtMost(creators: map<Creator, Progress>, some: set<Creator>)
    requires some <= creators.Keys
    ensures |set c | c in some && Succeeded(creators[c]) :: creators[c].answer.number| <= |some|
  {
    var numbers := set c | c in some && Succeeded(creators[c]) :: creators[c].answer.number;
    if some == {} {
      assert numbers == {};
    } else {
      var c :| c in some;
      var rest := some - {c};
      TakenAtMost(creators, rest);
      var fewer := set d | d in rest && Succeeded(creators[d]) :: creators[d].answer.number;
      if Succeeded(creators[c]) {
        assert numbers == fewer + {creators[c].answer.number};
      } else {
        assert numbers == fewer;
      }
    }
  }

  lemma {:induction false} NamesOfAtMost(base: string, numbers: set<nat>)
    ensures |NamesOf(base, numbers)| <= |numbers|
  {
    if numbers != {} {
      var n :| n in numbers;
      NamesOfAtMost(base, numbers - {n});
      assert NamesOf(base, numbers) == NamesOf(base, numbers - {n}) + {Name(base, n)};
    }
  }

  lemma {:induction false} SubsetSize<T>(a: set<T>, b: set<T>)
    requires a <= b
    ensures |a| <= |b|
  {
    if a != {} {
      var x :| x in a;
      SubsetSize(a - {x}, b - {x});
    }
  }

  /**
   A conflict, in any interleaving, means that existing entries, entries added by
   others and loops total more than 1000: within that bound no loop reports one.
   */
  lemma ConflictOnlyBeyondTheBound(base: string, initial: set<string>, steps: seq<Step>, c: Creator)
    requires IsRun(base, Begin(initial), steps)
    requires
      var s := Run(base, Begin(initial), steps);
      c in s.creators && s.creators[c] == Ended(NameConflict)
    ensures
      var s := Run(base, Begin(initial), steps);
      |initial| + |s.others| + |s.creators| > ATTEMPTS
  {
    BeginHolds(base, initial);
    RunKeepsInv(base, initial, Begin(initial), steps);
    var s := Run(base, Begin(initial), steps);
    assert Passed(base, s.folder, s.creators[c]);
    NamesCount(base, ATTEMPTS);
    SubsetSize(Names(base, ATTEMPTS), s.folder);
    var others := s.creators.Keys - {c};
    TakenAtMost(s.creators, others);
    assert Taken(s.creators) == set d | d in others && Succeeded(s.creators[d]) :: s.creators[d].answer.number;
    NamesOfAtMost(base, Taken(s.creators));
    assert |s.folder| <= |initial| + |s.others| + |NamesOf(base, Taken(s.creators))|;
  }

  /** The bound is tight: 1000 taken names and one loop end in a conflict. */
  lemma ConflictJustBeyondTheBound(base: string)
    ensures
      var initial := Names(base, ATTEMPTS);
      var steps := [Start(0)] + Tries(1);
      && IsRun(base, Begin(initial), steps)
      && var s := Run(base, Begin(initial), steps);
         && |initial| + |s.others| + |s.creators| == ATTEMPTS + 1
         && s.creators == map[0 := Ended(NameConflict)]
  {
    var initial := Names(base, ATTEMPTS);
    NamesCount(base, ATTEMPTS);
    var s := Next(base, Begin(initial), Start(0));
    AllTriesFail(base, s, 1);
    var steps := [Start(0)] + Tries(1);
    assert steps[0] == Start(0) && steps[1..] == Tries(1);
  }

  function Tries(attempt: nat): seq<Step>
    requires 1 <= attempt <= ATTEMPTS
    decreases ATTEMPTS - attempt
  {
    [Try(0, false)] + if attempt == ATTEMPTS then [] else Tries(attempt + 1)
  }

  lemma {:induction false} AllTriesFail(base: string, s: State, attempt: nat)
    requires 1 <= attempt <= ATTEMPTS && Names(base, ATTEMPTS) <= s.folder
    requires s.creators == map[0 := Trying(attempt)]
    ensures IsRun(base, s, Tries(attempt))
    ensures Run(base, s, Tries(attempt)) == s.(creators := map[0 := Ended(NameConflict)])
    decreases ATTEMPTS - attempt
  {
    var t := Next(base, s, Try(0, false));
    assert Name(base, attempt) in Names(base, ATTEMPTS);
    if attempt == ATTEMPTS {
      assert t == s.(creators := map[0 := Ended(NameConflict)]);
      assert Tries(attempt)[1..] == [];
    } else {
      assert t == s.(creators := map[0 := Trying(attempt + 1)]);
      AllTriesFail(base, t, attempt + 1);
      assert Tries(attempt)[1..] == Tries(attempt + 1);
    }
  }

  /** When every loop succeeds, each has its own number. */
  lemma {:induction false} TakenExactly(creators: map<Creator, Progress>, some: set<Creator>)
    requires forall c :: c in some ==> c in creators && Succeeded(creators[c])
    requires forall c, d :: c in some && d in some && Succeeded(creators[c]) && Succeeded(creators[d]) ==>
               creators[c].answer.number == creators[d].answer.number ==> c == d
    ensures |set c | c in some && Succeeded(creators[c]) :: creators[c].answer.number| == |some|
  {
    var numbers := set c | c in some && Succeeded(creators[c]) :: creators[c].answer.number;
    if some == {} {
      assert numbers == {};
    } else {
      var c :| c in some;
      var rest := some - {c};
      TakenExactly(creators, rest);
      var fewer := set d | d in rest && Succeeded(creators[d]) :: creators[d].answer.number;
      assert numbers == fewer + {creators[c].answer.number};
      assert creators[c].answer.number !in fewer;
    }
  }

  /** A set of taken numbers has no gap but names that others have. */
  ghost predicate Gapless(base: string, occupied: set<string>, numbers: set<nat>) {
    && (forall n :: n in numbers ==> n >= 1 && Name(base, n) !in occupied)
    && (forall n, k :: n in numbers && 1 <= k < n ==> k in numbers || Name(base, k) in occupied)
  }

  /** A number only one gapless set has is above everything the other has. */
  lemma GaplessAbove(base: string, occupied: set<string>, a: set<nat>, b: set<nat>, x: nat, y: nat)
    requires Gapless(base, occupied, a) && Gapless(base, occupied, b) && x in a - b && y in b
    ensures y < x
  {
  }

  lemma GaplessSetsAgree(base: string, occupied: set<string>, a: set<nat>, b: set<nat>)
    requires Gapless(base, occupied, a) && Gapless(base, occupied, b) && |a| == |b|
    ensures a == b
  {
    if a <= b {
      SameSizeSubset(a, b);
    } else {
      var x :| x in a && x !in b;
      forall y | y in b
        ensures y in a
      {
        GaplessAbove(base, occupied, a, b, x, y);
        if y !in a {
          GaplessAbove(base, occupied, b, a, y, x);
        }
      }
      SameSizeSubset(b, a);
    }
  }

  lemma {:induction false} SameSizeSubset<T>(a: set<T>, b: set<T>)
    requires a <= b && |a| == |b|
    ensures a == b
  {
    if b - a != {} {
      var x :| x in b - a;
      SubsetSize(a, b - {x});
    }
  }

  /** In every run, what the loops have taken is gapless, but for the entries that were there or that others added. */
  lemma TakenIsGapless(base: string, initial: set<string>, steps: seq<Step>)
    requires IsRun(base, Begin(initial), steps)
    ensures
      var s := Run(base, Begin(initial), steps);
      Gapless(base, initial + s.others, Taken(s.creators))
  {
    BeginHolds(base, initial);
    RunKeepsInv(base, initial, Begin(initial), steps);
    var s := Run(base, Begin(initial), steps);
    forall n, k | n in Taken(s.creators) && 1 <= k < n
      ensures k in Taken(s.creators) || Name(base, k) in initial + s.others
    {
      var c :| c in s.creators && Succeeded(s.creators[c]) && s.creators[c].answer.number == n;
      assert Passed(base, s.folder, s.creators[c]);
      assert Name(base, k) in Names(base, n);
      if Name(base, k) !in initial + s.others {
        var m :| m in Taken(s.creators) && Name(base, m) == Name(base, k);
        NamesDiffer(base, m, k);
      }
    }
  }

  predicate AllSucceeded(s: State) {
    forall c :: c in s.creators ==> Succeeded(s.creators[c])
  }

  /**
   The interleaving does not matter: two runs from one folder in which equally many
   loops all succeed, and others add the same names at whatever moments, leave the same
   folder, with the loops' least free numbers taken.
   */
  lemma InterleavingsEndInOneFolder(base: string, initial: set<string>, steps: seq<Step>, steps': seq<Step>)
    requires IsRun(base, Begin(initial), steps) && IsRun(base, Begin(initial), steps')
    requires AllSucceeded(Run(base, Begin(initial), steps)) && AllSucceeded(Run(base, Begin(initial), steps'))
    requires |Run(base, Begin(initial), steps).creators| == |Run(base, Begin(initial), steps').creators|
    requires Run(base, Begin(initial), steps).others == Run(base, Begin(initial), steps').others
    ensures Run(base, Begin(initial), steps).folder == Run(base, Begin(initial), steps').folder
  {
    var s, s' := Run(base, Begin(initial), steps), Run(base, Begin(initial), steps');
    BeginHolds(base, initial);
    RunKeepsInv(base, initial, Begin(initial), steps);
    RunKeepsInv(base, initial, Begin(initial), steps');
    TakenExactly(s.creators, s.creators.Keys);
    TakenExactly(s'.creators, s'.creators.Keys);
    assert Taken(s.creators) == set c | c in s.creators.Keys && Succeeded(s.creators[c]) :: s.creators[c].answer.number;
    assert Taken(s'.creators) == set c | c in s'.creators.Keys && Succeeded(s'.creators[c]) :: s'.creators[c].answer.number;
    TakenIsGapless(base, initial, steps);
    TakenIsGapless(base, initial, steps');
    GaplessSetsAgree(base, initial + s.others, Taken(s.creators), Taken(s'.creators));
  }
}
