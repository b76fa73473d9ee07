/**
 The evidence validators (e2e/visual/003Evidence.ts): each refuses keys of another
 role at any depth, reads the document field by field into a new one, and checks the
 fields against each other. Numbers are reals; key names are constructors.
 */
module Evidence {
  import opened Options
  import opened Text
  import opened Digest

  datatype Key =
    | SchemaVersion | CollectionId | GateId | Route | Binding | Os | Viewport | Width | Height
    | BrowserOrAppBuild | FontReady | FontPolicy | Theme | Sidebar | Session | Fixture | CollectorKey
    | ProductCommit | Hf2ManifestSha256 | FixtureDigest | HarnessVersion | PackageArtifactSha256
    | Tool | Version | RunIdentity
    | DeviationId | UiStack | MonoStack | ComputedUiFamily | ComputedMonoFamily | RemoteFontRequests
    | EnglishTargetVerified | UnicodeFallbackVerified
    | Masks | MaskId | SelectorOrRect | Surface | Reason | PerimeterChecked | Approved
    | EnvironmentPath | MaskPath | Claims | ArtifactDigests | CollectionDigest
    | ClaimId | FactClass | PrimaryRoute | ResultKey | ArtifactRefs | PathKey | Sha256
    | Reviewer | ReviewerIdentity | ReviewerVerdict | ReviewedCollections
    | ProductOwnerDecision | ProductOwnerDecisionPath | OwnerDecision | OwnerRequirement
    | OtherKey(name: string)

  /** The keys a collector must not carry. */
  predicate Foreign(key: Key) {
    || key.Reviewer? || key.ReviewerIdentity? || key.ReviewerVerdict? || key.ReviewedCollections?
    || key.ProductOwnerDecision? || key.ProductOwnerDecisionPath? || key.OwnerDecision? || key.OwnerRequirement?
  }

  datatype Json =
    | Null
    | Bool(truth: bool)
    | Number(number: real)
    | Words(text: string)
    | Array(items: seq<Json>)
    | Object(members: seq<Member>)

  datatype Member = Member(key: Key, value: Json)

  /** The value of a key, if the object has it. */
  function Lookup(members: seq<Member>, key: Key): Option<Json> {
    if members == [] then None
    else if members[0].key == key then Some(members[0].value)
    else Lookup(members[1..], key)
  }

  // ---------------------------------------------------------------- keys of another role

  /** `rejectForeignRoleFields` passes. */
  predicate Unmixed(v: Json) {
    match v
    case Array(items) => forall i :: 0 <= i < |items| ==> Unmixed(items[i])
    case Object(members) =>
      forall i :: 0 <= i < |members| ==> !Foreign(members[i].key) && Unmixed(members[i].value)
    case _ => true
  }

  /** The value reached by taking the numbered item or member at each step. */
  function At(v: Json, path: seq<nat>): Option<Json>
    decreases |path|
  {
    if path == [] then Some(v)
    else if v.Array? && path[0] < |v.items| then At(v.items[path[0]], path[1..])
    else if v.Object? && path[0] < |v.members| then At(v.members[path[0]].value, path[1..])
    else None
  }

  predicate ProhibitedAt(v: Json, path: seq<nat>, i: nat) {
    var at := At(v, path);
    at.Some? && at.value.Object? && i < |at.value.members| && Foreign(at.value.members[i].key)
  }

  lemma {:induction false} UnmixedAt(v: Json, path: seq<nat>, i: nat)
    requires Unmixed(v)
    ensures !ProhibitedAt(v, path, i)
    decreases |path|
  {
    if path != [] {
      if v.Array? && path[0] < |v.items| {
        UnmixedAt(v.items[path[0]], path[1..], i);
      } else if v.Object? && path[0] < |v.members| {
        UnmixedAt(v.members[path[0]].value, path[1..], i);
      }
    }
  }

  lemma {:induction false} FindProhibited(v: Json) returns (path: seq<nat>, i: nat)
    requires !Unmixed(v)
    ensures ProhibitedAt(v, path, i)
    decreases v
  {
    if v.Array? {
      var k: nat :| k < |v.items| && !Unmixed(v.items[k]);
      var rest, j := FindProhibited(v.items[k]);
      path, i := [k] + rest, j;
      assert path[1..] == rest;
    } else {
      var k: nat :| k < |v.members| && (Foreign(v.members[k].key) || !Unmixed(v.members[k].value));
      if Foreign(v.members[k].key) {
        path, i := [], k;
      } else {
        var rest, j := FindProhibited(v.members[k].value);
        path, i := [k] + rest, j;
        assert path[1..] == rest;
      }
    }
  }

  /** The check passes exactly when no object anywhere in the tree has a prohibited key. */
  lemma UnmixedIff(v: Json)
    ensures Unmixed(v) <==> forall path, i: nat :: !ProhibitedAt(v, path, i)
  {
    if Unmixed(v) {
      forall path, i: nat
        ensures !ProhibitedAt(v, path, i)
      {
        UnmixedAt(v, path, i);
      }
    } else {
      var path, i := FindProhibited(v);
    }
  }

  // ---------------------------------------------------------------- leaves

  predicate Separator(c: char) {
    c == '/' || c == '\\'
  }

  predicate InSegment(c: char) {
    !Separator(c)
  }

  /** The parts between slashes and backslashes. */
  function Segments(s: string): seq<string>
    decreases |s|
  {
    var k := RunEnd(s, 0, InSegment);
    if k == |s| then [s] else [s[..k]] + Segments(s[k + 1..])
  }

  /** `relativePath`. */
  predicate StaysInside(s: string) {
    !Blank(s, JsWhitespace) && s[..1] != "/" && ".." !in Segments(s)
  }

  /** `..` stands at `i` with a separator or an end of the path on both sides. */
  predicate ParentAt(s: string, i: int) {
    && 0 <= i && i + 2 <= |s| && s[i] == '.' && s[i + 1] == '.'
    && (i == 0 || Separator(s[i - 1])) && (i + 2 == |s| || Separator(s[i + 2]))
  }

  predicate HasParent(s: string) {
    exists i :: 0 <= i < |s| && ParentAt(s, i)
  }

  lemma {:induction false} ParentIsASegment(s: string)
    ensures ".." in Segments(s) <==> HasParent(s)
    decreases |s|
  {
    var k := RunEnd(s, 0, InSegment);
    FirstSegmentIsParent(s);
    if k == |s| {
      assert s[..k] == s;
      if HasParent(s) {
        var i :| 0 <= i < |s| && ParentAt(s, i);
        ParentIsWhole(s, i);
      }
    } else {
      ParentIsASegment(s[k + 1..]);
      ParentBehind(s, k);
    }
  }

  lemma FirstSegmentIsParent(s: string)
    ensures s[..RunEnd(s, 0, InSegment)] == ".." <==> ParentAt(s, 0)
  {
    var k := RunEnd(s, 0, InSegment);
    if s[..k] == ".." {
      assert k == 2 && s[0] == s[..k][0] && s[1] == s[..k][1];
    }
    if ParentAt(s, 0) {
      ParentIsWhole(s, 0);
    }
  }

  lemma ParentBehind(s: string, k: nat)
    requires k == RunEnd(s, 0, InSegment) && k < |s|
    ensures HasParent(s) <==> ParentAt(s, 0) || HasParent(s[k + 1..])
  {
    var rest := s[k + 1..];
    assert forall i :: 0 <= i < |rest| ==> rest[i] == s[k + 1 + i];
    if HasParent(s) {
      var i :| 0 <= i < |s| && ParentAt(s, i);
      ParentIsWhole(s, i);
      assert i == 0 || ParentAt(rest, i - k - 1);
    }
    if HasParent(rest) {
      var i :| 0 <= i < |rest| && ParentAt(rest, i);
      assert ParentAt(s, i + k + 1);
    }
  }

  /** A parent step at the front is the whole first segment; anywhere else it is behind that segment. */
  lemma ParentIsWhole(s: string, i: int)
    requires ParentAt(s, i)
    ensures
      var k := RunEnd(s, 0, InSegment);
      if i == 0 then k == 2 && s[..2] == ".." else k < i
  {
    if i == 0 {
      RunEndIs(s, 0, 2, InSegment);
    }
  }

  /** A path is accepted exactly when it is not blank, not rooted, and has no parent step. */
  lemma StaysInsideIff(s: string)
    ensures
      StaysInside(s) <==>
      !Blank(s, JsWhitespace) && s[0] != '/' && !HasParent(s)
  {
    ParentIsASegment(s);
    if s != [] {
      assert s[..1] == [s[0]];
    }
  }

  /** Simple case folding, as far as it yields ASCII letters. */
  function Folded(c: char): char {
    if 'A' <= c <= 'Z' then (c as int + 32) as char
    else if c as int == 0x17F then 's'
    else if c as int == 0x212A then 'k'
    else c
  }

  predicate WordChar(c: char) {
    'a' <= c <= 'z' || IsDigit(c) || c == '_'
  }

  predicate FoundAt(s: string, word: string, i: int) {
    0 <= i && i + |word| <= |s| && forall k :: 0 <= k < |word| ==> Folded(s[i + k]) == word[k]
  }

  /** Not next to another letter, digit or underscore. */
  predicate Alone(s: string, i: int, end: int) {
    && (i == 0 || i > |s| || i < 0 || !WordChar(Folded(s[i - 1])))
    && (end < 0 || end >= |s| || !WordChar(Folded(s[end])))
  }

  predicate FoundWord(s: string, word: string, alone: bool) {
    exists i :: 0 <= i < |s| && FoundAt(s, word, i) && (alone ==> Alone(s, i, i + |word|))
  }

  const SHELL_WORDS: seq<string> := ["shell", "sidebar", "tab", "workspace", "header"]

  /** The selector names UI the shell owns. */
  predicate NamesShell(s: string) {
    || (exists w :: 0 <= w < |SHELL_WORDS| && FoundWord(s, SHELL_WORDS[w], false))
    || FoundWord(s, "back", true)
  }

  /** The spellings of a lower-case letter: itself, its capital, the long s, the kelvin sign. */
  predicate Spells(c: char, letter: char) {
    || c == letter
    || ('a' <= letter <= 'z' && c as int == letter as int - 32)
    || (letter == 's' && c as int == 0x17F)
    || (letter == 'k' && c as int == 0x212A)
  }

  /** A letter, digit or underscore, in any spelling. */
  predicate InWord(c: char) {
    || 'a' <= c <= 'z' || 'A' <= c <= 'Z' || IsDigit(c) || c == '_' || c as int == 0x17F || c as int == 0x212A
  }

  predicate Variant(text: string, word: string) {
    |text| == |word| && forall k :: 0 <= k < |word| ==> Spells(text[k], word[k])
  }

  predicate Letters(word: string) {
    forall k :: 0 <= k < |word| ==> 'a' <= word[k] <= 'z'
  }

  lemma SpellsIffFolds(c: char, letter: char)
    requires 'a' <= letter <= 'z'
    ensures Spells(c, letter) <==> Folded(c) == letter
  {
  }

  lemma InWordIffFolds(c: char)
    ensures InWord(c) <==> WordChar(Folded(c))
  {
  }

  /** A word is found at a place exactly when a variant of it stands there. */
  lemma FoundAtIff(s: string, word: string, i: nat)
    requires Letters(word) && i + |word| <= |s|
    ensures FoundAt(s, word, i) <==> Variant(s[i..i + |word|], word)
  {
    forall k | 0 <= k < |word|
      ensures Spells(s[i + k], word[k]) <==> Folded(s[i + k]) == word[k]
    {
      SpellsIffFolds(s[i + k], word[k]);
    }
    var middle := s[i..i + |word|];
    assert forall k :: 0 <= k < |word| ==> middle[k] == s[i + k];
  }

  /** `text` holds a variant of the word, with nothing of a word on either side if it must stand alone. */
  predicate Mentions(before: string, middle: string, after: string, word: string, alone: bool) {
    && Variant(middle, word)
    && (alone ==> (before == [] || !InWord(before[|before| - 1])) && (after == [] || !InWord(after[0])))
  }

  ghost predicate MentionsWord(s: string, word: string, alone: bool) {
    exists before, middle, after :: s == before + middle + after && Mentions(before, middle, after, word, alone)
  }

  lemma FoundWordIff(s: string, word: string, alone: bool)
    requires Letters(word) && word != []
    ensures FoundWord(s, word, alone) <==> MentionsWord(s, word, alone)
  {
    if FoundWord(s, word, alone) {
      var i :| 0 <= i < |s| && FoundAt(s, word, i) && (alone ==> Alone(s, i, i + |word|));
      FoundAtIff(s, word, i);
      var before, middle, after := s[..i], s[i..i + |word|], s[i + |word|..];
      if before != [] {
        InWordIffFolds(s[i - 1]);
      }
      if after != [] {
        InWordIffFolds(s[i + |word|]);
      }
      assert s == before + middle + after && Mentions(before, middle, after, word, alone);
    }
    if MentionsWord(s, word, alone) {
      var before, middle, after :| s == before + middle + after && Mentions(before, middle, after, word, alone);
      var i := |before|;
      assert s[i..i + |word|] == middle;
      FoundAtIff(s, word, i);
      if before != [] {
        InWordIffFolds(s[i - 1]);
      }
      if after != [] {
        assert s[i + |word|] == after[0];
        InWordIffFolds(s[i + |word|]);
      }
      assert FoundAt(s, word, i) && (alone ==> Alone(s, i, i + |word|));
    }
  }

  lemma ShellWordsAreLetters(w: nat)
    requires w < |SHELL_WORDS|
    ensures SHELL_WORDS[w] != [] && Letters(SHELL_WORDS[w])
  {
  }

  /**
   Which selectors are refused as shell UI: those that contain one of the shell's words, or
   `back` standing alone, in any letter case and with the two foreign letters that fold to ASCII.
   */
  lemma NamesShellIff(s: string)
    ensures
      NamesShell(s) <==>
      (exists w :: 0 <= w < |SHELL_WORDS| && MentionsWord(s, SHELL_WORDS[w], false)) || MentionsWord(s, "back", true)
  {
    forall w | 0 <= w < |SHELL_WORDS|
      ensures FoundWord(s, SHELL_WORDS[w], false) <==> MentionsWord(s, SHELL_WORDS[w], false)
    {
      ShellWordsAreLetters(w);
      FoundWordIff(s, SHELL_WORDS[w], false);
    }
    FoundWordIff(s, "back", true);
  }

  // ---------------------------------------------------------------- the fixed words

  datatype Vocabulary = Gates | Routes | FactClasses | Surfaces | Themes | Sidebars | Sessions | Verdicts

  const BROWSER := "semantic-browser"

  function Choices(vocabulary: Vocabulary): seq<string> {
    match vocabulary
    case Gates =>
      ["VSL-001", "HF2-01", "HF2-02", "HF2-03", "HF2-04", "HF2-05", "HF2-06", "FINAL-003", "T023b", "T024"]
    case Routes =>
      ["shell-filesystem", BROWSER, "macos-accessibility", "deterministic-runtime", "fixed-capture-review"]
    case FactClasses =>
      ["repository-package-identity", "webview-semantic", "native-menu-action", "application-route-outcome",
       "visual-fidelity"]
    case Surfaces => ["canvas", "editor-toolbar", "library", "presentation"]
    case Themes => ["light", "dark"]
    case Sidebars => ["hidden", "overlay", "pinned"]
    case Sessions => ["empty", "restored", "workspace", "recovery"]
    case Verdicts => ["PASS", "FAIL", "BLOCKED"]
  }

  datatype Constant = One | Zero | Yes | Deviation | PlatformUiStack | PlatformMonoStack

  function Constantly(constant: Constant): Json {
    match constant
    case One => Number(1.0)
    case Zero => Number(0.0)
    case Yes => Bool(true)
    case Deviation => Words("HF2-FONT-001")
    case PlatformUiStack => Words("-apple-system, BlinkMacSystemFont, \"Segoe UI\", sans-serif")
    case PlatformMonoStack => Words("ui-monospace, SFMono-Regular, Menlo, monospace")
  }

  // ---------------------------------------------------------------- schemas

  datatype Schema =
    | AnyText
    | OneOf(vocabulary: Vocabulary)
    | Hash(length: nat)
    | PositiveInteger
    | InsidePath
    | Selector
    | Exactly(constant: Constant)
    | ListOf(element: Schema)
    | Record(fields: seq<Field>)

  /** `Flag` fields are kept when they have the value and dropped otherwise. */
  datatype Presence = Required | Optional | Flag

  datatype Field = Field(key: Key, presence: Presence, schema: Schema)

  predicate Leaf(s: Schema, v: Json) {
    match s
    case AnyText => v.Words? && !Blank(v.text, JsWhitespace)
    case OneOf(vocabulary) => v.Words? && v.text in Choices(vocabulary)
    case Hash(length) => v.Words? && HexDigits(v.text, length)
    case PositiveInteger => v.Number? && v.number == v.number.Floor as real && v.number > 0.0
    case InsidePath => v.Words? && StaysInside(v.text)
    case Selector => v.Words? && !Blank(v.text, JsWhitespace) && !NamesShell(v.text)
    case Exactly(constant) => v == Constantly(constant)
    case _ => false
  }

  /** What a validator builds from a value; `None` is a refusal. */
  function Read(s: Schema, v: Json): Option<Json>
    decreases s, 1, 0
  {
    match s
    case ListOf(element) =>
      if !v.Array? then None
      else
        var items := ReadItems(element, v.items);
        if items.None? then None else Some(Array(items.value))
    case Record(fields) =>
      if !v.Object? then None
      else
        var members := ReadFields(fields, v.members);
        if members.None? then None else Some(Object(members.value))
    case _ => if Leaf(s, v) then Some(v) else None
  }

  function ReadItems(element: Schema, items: seq<Json>): Option<seq<Json>>
    decreases element, 2, |items|
  {
    if items == [] then Some([])
    else
      var first := Read(element, items[0]);
      var rest := ReadItems(element, items[1..]);
      if first.None? || rest.None? then None else Some([first.value] + rest.value)
  }

  /** One field: refused, left out, or its member. */
  function ReadField(f: Field, members: seq<Member>): Option<seq<Member>>
    decreases f, 0, 0
  {
    var found := Lookup(members, f.key);
    if found.None? then (if f.presence.Required? then None else Some([]))
    else
      var value := Read(f.schema, found.value);
      if value.Some? then Some([Member(f.key, value.value)])
      else if f.presence.Flag? then Some([])
      else None
  }

  function ReadFields(fields: seq<Field>, members: seq<Member>): Option<seq<Member>>
    decreases fields, 0, 0
  {
    if fields == [] then Some([])
    else
      var first := ReadField(fields[0], members);
      var rest := ReadFields(fields[1..], members);
      if first.None? || rest.None? then None else Some(first.value + rest.value)
  }

  // ---------------------------------------------------------------- reading again changes nothing

  predicate DistinctKeys(fields: seq<Field>) {
    forall i, j :: 0 <= i < j < |fields| ==> fields[i].key != fields[j].key
  }

  predicate WellFormed(s: Schema) {
    match s
    case ListOf(element) => WellFormed(element)
    case Record(fields) =>
      && DistinctKeys(fields)
      && forall i :: 0 <= i < |fields| ==> WellFormed(fields[i].schema) && !Foreign(fields[i].key)
    case _ => true
  }

  /** Reading looks at the named keys only. */
  lemma {:induction false} OnlyNamedKeysMatter(fields: seq<Field>, a: seq<Member>, b: seq<Member>)
    requires forall i :: 0 <= i < |fields| ==> Lookup(a, fields[i].key) == Lookup(b, fields[i].key)
    ensures ReadFields(fields, a) == ReadFields(fields, b)
  {
    if fields != [] {
      assert forall i :: 0 <= i < |fields| - 1 ==> fields[1..][i] == fields[i + 1];
      OnlyNamedKeysMatter(fields[1..], a, b);
    }
  }

  lemma {:induction false} LookupAppends(a: seq<Member>, b: seq<Member>, key: Key)
    ensures Lookup(a + b, key) == if Lookup(a, key).Some? then Lookup(a, key) else Lookup(b, key)
  {
    if a == [] {
      assert a + b == b;
    } else {
      assert (a + b)[1..] == a[1..] + b;
      LookupAppends(a[1..], b, key);
    }
  }

  lemma {:induction false} AbsentFromOutput(fields: seq<Field>, members: seq<Member>, key: Key)
    requires ReadFields(fields, members).Some? && forall i :: 0 <= i < |fields| ==> fields[i].key != key
    ensures Lookup(ReadFields(fields, members).value, key).None?
  {
    if fields != [] {
      AbsentFromOutput(fields[1..], members, key);
      LookupAppends(ReadField(fields[0], members).value, ReadFields(fields[1..], members).value, key);
    }
  }

  /** A key of the output has what its own field was read to. */
  lemma {:induction false} LookupOutput(fields: seq<Field>, members: seq<Member>, i: nat)
    requires DistinctKeys(fields) && ReadFields(fields, members).Some? && i < |fields|
    ensures ReadField(fields[i], members).Some?
    ensures
      Lookup(ReadFields(fields, members).value, fields[i].key) ==
        Lookup(ReadField(fields[i], members).value, fields[i].key)
  {
    var first, rest := ReadField(fields[0], members), ReadFields(fields[1..], members);
    LookupAppends(first.value, rest.value, fields[i].key);
    if i == 0 {
      AbsentFromOutput(fields[1..], members, fields[0].key);
    } else {
      LookupOutput(fields[1..], members, i - 1);
    }
  }

  lemma {:induction false} ReadAgain(s: Schema, v: Json)
    requires WellFormed(s) && Read(s, v).Some?
    ensures Read(s, Read(s, v).value) == Read(s, v)
    decreases s, 1, 0
  {
    match s
    case ListOf(element) => ItemsAgain(element, v.items);
    case Record(fields) => FieldsAgain(fields, v.members);
    case _ =>
  }

  lemma {:induction false} ItemsAgain(element: Schema, items: seq<Json>)
    requires WellFormed(element) && ReadItems(element, items).Some?
    ensures ReadItems(element, ReadItems(element, items).value) == ReadItems(element, items)
    decreases element, 2, |items|
  {
    if items != [] {
      ReadAgain(element, items[0]);
      ItemsAgain(element, items[1..]);
      var out := ReadItems(element, items).value;
      assert out[1..] == ReadItems(element, items[1..]).value;
    }
  }

  lemma {:induction false} FieldsAgain(fields: seq<Field>, members: seq<Member>)
    requires DistinctKeys(fields) && forall i :: 0 <= i < |fields| ==> WellFormed(fields[i].schema)
    requires ReadFields(fields, members).Some?
    ensures ReadFields(fields, ReadFields(fields, members).value) == ReadFields(fields, members)
    decreases fields, 0, 0
  {
    if fields != [] {
      var first, rest := ReadField(fields[0], members).value, ReadFields(fields[1..], members).value;
      var out := first + rest;
      assert forall i :: 0 <= i < |fields| - 1 ==> fields[1..][i] == fields[i + 1];
      FieldsAgain(fields[1..], members);
      FieldAgain(fields[0], members);
      AbsentFromOutput(fields[1..], members, fields[0].key);
      LookupAppends(first, rest, fields[0].key);
      FieldLooksOnce(fields[0], out, first);
      forall i | 0 <= i < |fields| - 1
        ensures Lookup(out, fields[1..][i].key) == Lookup(rest, fields[1..][i].key)
      {
        LookupAppends(first, rest, fields[1..][i].key);
      }
      OnlyNamedKeysMatter(fields[1..], out, rest);
    }
  }

  lemma FieldLooksOnce(f: Field, a: seq<Member>, b: seq<Member>)
    requires Lookup(a, f.key) == Lookup(b, f.key)
    ensures ReadField(f, a) == ReadField(f, b)
  {
  }

  lemma {:induction false} FieldAgain(f: Field, members: seq<Member>)
    requires WellFormed(f.schema) && ReadField(f, members).Some?
    ensures ReadField(f, ReadField(f, members).value) == ReadField(f, members)
    decreases f, 0, 0
  {
    var out := ReadField(f, members).value;
    if out != [] {
      ReadAgain(f.schema, Lookup(members, f.key).value);
      assert Lookup(out, f.key) == Some(out[0].value);
    }
  }

  // ---------------------------------------------------------------- what is read has no foreign keys

  lemma {:induction false} OutputIsUnmixed(s: Schema, v: Json)
    requires WellFormed(s) && Read(s, v).Some?
    ensures Unmixed(Read(s, v).value)
    decreases s, 1, 0
  {
    match s
    case ListOf(element) => ItemsAreUnmixed(element, v.items);
    case Record(fields) => FieldsAreUnmixed(fields, v.members);
    case _ =>
  }

  lemma {:induction false} ItemsAreUnmixed(element: Schema, items: seq<Json>)
    requires WellFormed(element) && ReadItems(element, items).Some?
    ensures forall i :: 0 <= i < |ReadItems(element, items).value| ==> Unmixed(ReadItems(element, items).value[i])
    decreases element, 2, |items|
  {
    if items != [] {
      OutputIsUnmixed(element, items[0]);
      ItemsAreUnmixed(element, items[1..]);
    }
  }

  lemma {:induction false} FieldsAreUnmixed(fields: seq<Field>, members: seq<Member>)
    requires ReadFields(fields, members).Some?
    requires forall i :: 0 <= i < |fields| ==> WellFormed(fields[i].schema) && !Foreign(fields[i].key)
    ensures
      var out := ReadFields(fields, members).value;
      forall i :: 0 <= i < |out| ==> !Foreign(out[i].key) && Unmixed(out[i].value)
    decreases fields, 0, 0
  {
    if fields != [] {
      FieldsAreUnmixed(fields[1..], members);
      FieldIsUnmixed(fields[0], members);
    }
  }

  lemma {:induction false} FieldIsUnmixed(f: Field, members: seq<Member>)
    requires ReadField(f, members).Some? && WellFormed(f.schema)
    ensures forall m :: m in ReadField(f, members).value ==> m.key == f.key && Unmixed(m.value)
    decreases f, 0, 0
  {
    if ReadField(f, members).value != [] {
      OutputIsUnmixed(f.schema, Lookup(members, f.key).value);
    }
  }

  // ---------------------------------------------------------------- the documents

  const BINDING := Record([
    Field(ProductCommit, Required, Hash(40)),
    Field(Hf2ManifestSha256, Required, Hash(64)),
    Field(FixtureDigest, Required, Hash(64)),
    Field(HarnessVersion, Required, AnyText),
    Field(PackageArtifactSha256, Optional, Hash(64))])

  const COLLECTOR := Record([
    Field(Tool, Required, AnyText),
    Field(Version, Required, AnyText),
    Field(RunIdentity, Required, AnyText)])

  const FONT_POLICY := Record([
    Field(DeviationId, Required, Exactly(Deviation)),
    Field(UiStack, Required, Exactly(PlatformUiStack)),
    Field(MonoStack, Required, Exactly(PlatformMonoStack)),
    Field(ComputedUiFamily, Required, AnyText),
    Field(ComputedMonoFamily, Required, AnyText),
    Field(RemoteFontRequests, Required, Exactly(Zero)),
    Field(EnglishTargetVerified, Required, Exactly(Yes)),
    Field(UnicodeFallbackVerified, Required, Exactly(Yes))])

  const VIEWPORT := Record([
    Field(Width, Required, PositiveInteger),
    Field(Height, Required, PositiveInteger)])

  const ENVIRONMENT_HEADER: seq<Field> := [
    Field(SchemaVersion, Required, Exactly(One)),
    Field(CollectionId, Required, AnyText),
    Field(GateId, Required, OneOf(Gates)),
    Field(Route, Required, OneOf(Routes)),
    Field(Binding, Required, BINDING),
    Field(Os, Required, AnyText),
    Field(Viewport, Optional, VIEWPORT),
    Field(BrowserOrAppBuild, Required, AnyText)]

  const ENVIRONMENT_DETAILS: seq<Field> := [
    Field(FontReady, Flag, Exactly(Yes)),
    Field(FontPolicy, Optional, FONT_POLICY),
    Field(Theme, Optional, OneOf(Themes)),
    Field(Sidebar, Optional, OneOf(Sidebars)),
    Field(Session, Optional, OneOf(Sessions)),
    Field(Fixture, Required, AnyText),
    Field(CollectorKey, Required, COLLECTOR)]

  const ENVIRONMENT_FIELDS := ENVIRONMENT_HEADER + ENVIRONMENT_DETAILS

  const MASK := Record([
    Field(MaskId, Required, AnyText),
    Field(SelectorOrRect, Required, Selector),
    Field(Surface, Required, OneOf(Surfaces)),
    Field(Reason, Required, AnyText),
    Field(PerimeterChecked, Required, Exactly(Yes)),
    Field(Approved, Required, Exactly(Yes))])

  const MASK_FIELDS: seq<Field> := [
    Field(SchemaVersion, Required, Exactly(One)),
    Field(CollectionId, Required, AnyText),
    Field(GateId, Required, OneOf(Gates)),
    Field(Binding, Required, BINDING),
    Field(Masks, Required, ListOf(MASK))]

  const CLAIM_FIELDS: seq<Field> := [
    Field(ClaimId, Required, AnyText),
    Field(FactClass, Required, OneOf(FactClasses)),
    Field(PrimaryRoute, Required, OneOf(Routes)),
    Field(ResultKey, Required, OneOf(Verdicts)),
    Field(ArtifactRefs, Required, ListOf(InsidePath))]

  const ARTIFACT_FIELDS: seq<Field> := [
    Field(PathKey, Required, InsidePath),
    Field(Sha256, Required, Hash(64))]

  const REPORT_HEADER: seq<Field> := [
    Field(SchemaVersion, Required, Exactly(One)),
    Field(CollectionId, Required, AnyText),
    Field(GateId, Required, OneOf(Gates)),
    Field(Route, Required, OneOf(Routes)),
    Field(Binding, Required, BINDING),
    Field(CollectorKey, Required, COLLECTOR)]

  const REPORT_CONTENTS: seq<Field> := [
    Field(EnvironmentPath, Required, InsidePath),
    Field(MaskPath, Optional, InsidePath),
    Field(Claims, Required, ListOf(Record(CLAIM_FIELDS))),
    Field(ArtifactDigests, Required, ListOf(Record(ARTIFACT_FIELDS))),
    Field(CollectionDigest, Required, Hash(64)),
    Field(ResultKey, Required, OneOf(Verdicts))]

  const REPORT_FIELDS := REPORT_HEADER + REPORT_CONTENTS

  predicate Plain(s: Schema) {
    !s.ListOf? && !s.Record?
  }

  /** The schemas with parts of their own that the documents use. */
  const NESTED: set<Schema> :=
    {BINDING, COLLECTOR, FONT_POLICY, VIEWPORT, ListOf(MASK), ListOf(InsidePath),
     ListOf(Record(CLAIM_FIELDS)), ListOf(Record(ARTIFACT_FIELDS))}

  const LEAVES: set<Schema> := {}
  const PATHS: set<Schema> := {ListOf(InsidePath)}

  predicate PartsAmong(fields: seq<Field>, nested: set<Schema>) {
    forall i :: 0 <= i < |fields| ==>
      !Foreign(fields[i].key) && (Plain(fields[i].schema) || fields[i].schema in nested)
  }

  lemma RecordIsWellFormed(fields: seq<Field>, nested: set<Schema>)
    requires DistinctKeys(fields) && PartsAmong(fields, nested) && forall s :: s in nested ==> WellFormed(s)
    ensures WellFormed(Record(fields))
  {
  }

  lemma BindingKeys()
    ensures DistinctKeys(BINDING.fields)
  {
  }

  lemma CollectorKeys()
    ensures DistinctKeys(COLLECTOR.fields)
  {
  }

  lemma FontPolicyKeys()
    ensures DistinctKeys(FONT_POLICY.fields)
  {
  }

  lemma ViewportKeys()
    ensures DistinctKeys(VIEWPORT.fields)
  {
  }

  lemma MaskEntryKeys()
    ensures DistinctKeys(MASK.fields)
  {
  }

  lemma ArtifactKeys()
    ensures DistinctKeys(ARTIFACT_FIELDS)
  {
  }

  lemma ClaimKeys()
    ensures DistinctKeys(CLAIM_FIELDS)
  {
  }

  lemma PartsOfRecords()
    ensures PartsAmong(BINDING.fields, LEAVES) && PartsAmong(COLLECTOR.fields, LEAVES)
    ensures PartsAmong(VIEWPORT.fields, LEAVES) && PartsAmong(ARTIFACT_FIELDS, LEAVES)
  {
  }

  lemma PartsOfLongerRecords()
    ensures PartsAmong(FONT_POLICY.fields, LEAVES) && PartsAmong(MASK.fields, LEAVES)
    ensures PartsAmong(CLAIM_FIELDS, PATHS)
  {
  }

  lemma NestedAreWellFormed()
    ensures forall s :: s in NESTED ==> WellFormed(s)
  {
    PartsOfRecords();
    PartsOfLongerRecords();
    BindingKeys();
    RecordIsWellFormed(BINDING.fields, LEAVES);
    CollectorKeys();
    RecordIsWellFormed(COLLECTOR.fields, LEAVES);
    FontPolicyKeys();
    RecordIsWellFormed(FONT_POLICY.fields, LEAVES);
    ViewportKeys();
    RecordIsWellFormed(VIEWPORT.fields, LEAVES);
    MaskEntryKeys();
    RecordIsWellFormed(MASK.fields, LEAVES);
    ArtifactKeys();
    RecordIsWellFormed(ARTIFACT_FIELDS, LEAVES);
    ClaimKeys();
    RecordIsWellFormed(CLAIM_FIELDS, PATHS);
  }

  predicate NoSharedKey(a: seq<Field>, b: seq<Field>) {
    forall i, j :: 0 <= i < |a| && 0 <= j < |b| ==> a[i].key != b[j].key
  }

  lemma JoinedKeys(a: seq<Field>, b: seq<Field>)
    requires DistinctKeys(a) && DistinctKeys(b) && NoSharedKey(a, b)
    ensures DistinctKeys(a + b)
  {
  }

  lemma EnvironmentHeaderKeys()
    ensures DistinctKeys(ENVIRONMENT_HEADER) && NoSharedKey(ENVIRONMENT_HEADER, ENVIRONMENT_DETAILS)
  {
  }

  lemma EnvironmentDetailKeys()
    ensures DistinctKeys(ENVIRONMENT_DETAILS)
  {
  }

  lemma EnvironmentKeys()
    ensures DistinctKeys(ENVIRONMENT_FIELDS)
  {
    EnvironmentHeaderKeys();
    EnvironmentDetailKeys();
    JoinedKeys(ENVIRONMENT_HEADER, ENVIRONMENT_DETAILS);
  }

  lemma EnvironmentParts()
    ensures PartsAmong(ENVIRONMENT_HEADER, NESTED) && PartsAmong(ENVIRONMENT_DETAILS, NESTED)
    ensures PartsAmong(ENVIRONMENT_FIELDS, NESTED)
  {
  }

  lemma EnvironmentIsWellFormed()
    ensures WellFormed(Record(ENVIRONMENT_FIELDS))
  {
    NestedAreWellFormed();
    EnvironmentKeys();
    EnvironmentParts();
    RecordIsWellFormed(ENVIRONMENT_FIELDS, NESTED);
  }

  lemma MaskKeys()
    ensures DistinctKeys(MASK_FIELDS)
  {
  }

  lemma MaskParts()
    ensures PartsAmong(MASK_FIELDS, NESTED)
  {
  }

  lemma MaskIsWellFormed()
    ensures WellFormed(Record(MASK_FIELDS))
  {
    NestedAreWellFormed();
    MaskKeys();
    MaskParts();
    RecordIsWellFormed(MASK_FIELDS, NESTED);
  }

  lemma ReportKeys()
    ensures DistinctKeys(REPORT_FIELDS)
  {
    ReportHeaderKeys();
    ReportContentsKeys();
    JoinedKeys(REPORT_HEADER, REPORT_CONTENTS);
  }

  lemma ReportHeaderKeys()
    ensures DistinctKeys(REPORT_HEADER) && NoSharedKey(REPORT_HEADER, REPORT_CONTENTS)
  {
  }

  lemma ReportContentsKeys()
    ensures DistinctKeys(REPORT_CONTENTS)
  {
  }

  lemma ReportParts()
    ensures PartsAmong(REPORT_HEADER, NESTED) && PartsAmong(REPORT_CONTENTS, NESTED)
    ensures PartsAmong(REPORT_FIELDS, NESTED)
  {
  }

  lemma ReportIsWellFormed()
    ensures WellFormed(Record(REPORT_FIELDS))
  {
    NestedAreWellFormed();
    ReportKeys();
    ReportParts();
    RecordIsWellFormed(REPORT_FIELDS, NESTED);
  }

  // ---------------------------------------------------------------- the validators

  function MembersOf(v: Json): seq<Member> {
    if v.Object? then v.members else []
  }

  /** Browser evidence needs loaded fonts and the font policy. */
  predicate BrowserProven(v: Json) {
    Lookup(MembersOf(v), Route) == Some(Words(BROWSER)) ==>
      Lookup(MembersOf(v), FontReady) == Some(Constantly(Yes)) && Lookup(MembersOf(v), FontPolicy).Some?
  }

  function ValidateEnvironment(v: Json): Option<Json> {
    var read := Read(Record(ENVIRONMENT_FIELDS), v);
    if Unmixed(v) && read.Some? && BrowserProven(v) then read else None
  }

  function ValidateMask(v: Json): Option<Json> {
    if Unmixed(v) then Read(Record(MASK_FIELDS), v) else None
  }

  function ItemsOf(v: Option<Json>): seq<Json> {
    if v.Some? && v.value.Array? then v.value.items else []
  }

  function TextOf(v: Option<Json>): string {
    if v.Some? && v.value.Words? then v.value.text else []
  }

  /** Every claim uses the collection's own route. */
  predicate OneRoute(w: Json) {
    var claims := ItemsOf(Lookup(MembersOf(w), Claims));
    forall i :: 0 <= i < |claims| ==>
      Lookup(MembersOf(claims[i]), PrimaryRoute) == Lookup(MembersOf(w), Route)
  }

  function ArtifactOf(v: Json): Artifact {
    Artifact(TextOf(Lookup(MembersOf(v), PathKey)), TextOf(Lookup(MembersOf(v), Sha256)))
  }

  function Artifacts(w: Json): (a: seq<Artifact>)
    ensures |a| == |ItemsOf(Lookup(MembersOf(w), ArtifactDigests))|
  {
    var items := ItemsOf(Lookup(MembersOf(w), ArtifactDigests));
    seq(|items|, i requires 0 <= i < |items| => ArtifactOf(items[i]))
  }

  type DigestOf = seq<Artifact> -> string

  function ValidateReport(v: Json, digest: DigestOf): Option<Json> {
    var read := Read(Record(REPORT_FIELDS), v);
    if Unmixed(v) && read.Some? && OneRoute(read.value)
       && Lookup(MembersOf(read.value), CollectionDigest) == Some(Words(digest(Artifacts(read.value))))
    then read else None
  }

  // ---------------------------------------------------------------- main results

  /** Nothing accepted has a key of another role, at any depth. */
  lemma AcceptedIsUnmixed(v: Json, digest: DigestOf, path: seq<nat>, i: nat)
    requires ValidateEnvironment(v).Some? || ValidateMask(v).Some? || ValidateReport(v, digest).Some?
    ensures !ProhibitedAt(v, path, i)
  {
    UnmixedAt(v, path, i);
  }

  /** The validators are projections: what they build is accepted, and built again unchanged. */
  lemma MaskIsAProjection(v: Json)
    requires ValidateMask(v).Some?
    ensures ValidateMask(ValidateMask(v).value) == ValidateMask(v)
  {
    MaskIsWellFormed();
    ReadAgain(Record(MASK_FIELDS), v);
    OutputIsUnmixed(Record(MASK_FIELDS), v);
  }

  lemma ReportIsAProjection(v: Json, digest: DigestOf)
    requires ValidateReport(v, digest).Some?
    ensures ValidateReport(ValidateReport(v, digest).value, digest) == ValidateReport(v, digest)
  {
    ReportIsWellFormed();
    ReadAgain(Record(REPORT_FIELDS), v);
    OutputIsUnmixed(Record(REPORT_FIELDS), v);
  }

  /** Where the output has the three fields that the browser check looks at. */
  lemma EnvironmentLookups(v: Json)
    requires Read(Record(ENVIRONMENT_FIELDS), v).Some?
    ensures
      var w := Read(Record(ENVIRONMENT_FIELDS), v).value;
      && Lookup(MembersOf(w), Route) == Lookup(MembersOf(v), Route)
      && (Lookup(MembersOf(v), FontReady) == Some(Constantly(Yes)) <==>
            Lookup(MembersOf(w), FontReady) == Some(Constantly(Yes)))
      && (Lookup(MembersOf(v), FontPolicy).Some? <==> Lookup(MembersOf(w), FontPolicy).Some?)
  {
    EnvironmentKeys();
    EnvironmentPositions();
    BrowserLookups(ENVIRONMENT_FIELDS, v);
  }

  lemma BrowserLookups(fields: seq<Field>, v: Json)
    requires DistinctKeys(fields) && |fields| > 9 && Read(Record(fields), v).Some?
    requires fields[3] == Field(Route, Required, OneOf(Routes))
    requires fields[8] == Field(FontReady, Flag, Exactly(Yes))
    requires fields[9] == Field(FontPolicy, Optional, FONT_POLICY)
    ensures
      var w := Read(Record(fields), v).value;
      && Lookup(MembersOf(w), Route) == Lookup(MembersOf(v), Route)
      && (Lookup(MembersOf(v), FontReady) == Some(Constantly(Yes)) <==>
            Lookup(MembersOf(w), FontReady) == Some(Constantly(Yes)))
      && (Lookup(MembersOf(v), FontPolicy).Some? <==> Lookup(MembersOf(w), FontPolicy).Some?)
  {
    LookupOutput(fields, v.members, 3);
    LookupOutput(fields, v.members, 8);
    LookupOutput(fields, v.members, 9);
    LeafField(fields[3], v.members);
    FlagField(fields[8], v.members);
  }

  lemma EnvironmentPositions()
    ensures |ENVIRONMENT_FIELDS| == 15
    ensures ENVIRONMENT_FIELDS[3] == Field(Route, Required, OneOf(Routes))
    ensures ENVIRONMENT_FIELDS[8] == Field(FontReady, Flag, Exactly(Yes))
    ensures ENVIRONMENT_FIELDS[9] == Field(FontPolicy, Optional, FONT_POLICY)
  {
  }

  lemma LeafField(f: Field, members: seq<Member>)
    requires Plain(f.schema) && f.presence.Required? && ReadField(f, members).Some?
    ensures Lookup(ReadField(f, members).value, f.key) == Lookup(members, f.key)
  {
    assert Lookup([Member(f.key, Lookup(members, f.key).value)], f.key) == Lookup(members, f.key);
  }

  lemma FlagField(f: Field, members: seq<Member>)
    requires f.schema.Exactly? && f.presence.Flag?
    ensures
      var on := Some(Constantly(f.schema.constant));
      && ReadField(f, members).Some?
      && (Lookup(members, f.key) == on <==> Lookup(ReadField(f, members).value, f.key) == on)
  {
    var found := Lookup(members, f.key);
    if found == Some(Constantly(f.schema.constant)) {
      assert Lookup([Member(f.key, found.value)], f.key) == found;
    }
  }

  lemma EnvironmentIsAProjection(v: Json)
    requires ValidateEnvironment(v).Some?
    ensures ValidateEnvironment(ValidateEnvironment(v).value) == ValidateEnvironment(v)
  {
    EnvironmentIsWellFormed();
    ReadAgain(Record(ENVIRONMENT_FIELDS), v);
    OutputIsUnmixed(Record(ENVIRONMENT_FIELDS), v);
    EnvironmentLookups(v);
  }

  /** The check on the input is a check on the output: accepted browser evidence keeps its proof. */
  lemma BrowserEvidenceKeepsItsProof(v: Json)
    requires ValidateEnvironment(v).Some? && Lookup(MembersOf(v), Route) == Some(Words(BROWSER))
    ensures
      var out := MembersOf(ValidateEnvironment(v).value);
      Lookup(out, FontReady) == Some(Bool(true)) && Lookup(out, FontPolicy).Some?
  {
    EnvironmentLookups(v);
  }

  lemma {:induction false} EachItemIsRead(element: Schema, items: seq<Json>, i: nat)
    requires ReadItems(element, items).Some? && i < |items|
    ensures |ReadItems(element, items).value| == |items|
    ensures Read(element, items[i]) == Some(ReadItems(element, items).value[i])
    decreases |items|
  {
    if |items| > 1 {
      EachItemIsRead(element, items[1..], if i > 0 then i - 1 else 0);
    }
  }

  /** An artifact that reads back as itself has a well-formed hash. */
  lemma ArtifactIsHashed(v: Json)
    requires Read(Record(ARTIFACT_FIELDS), v) == Some(v)
    ensures HexDigits(ArtifactOf(v).sha256, 64) && StaysInside(ArtifactOf(v).path)
  {
    ArtifactKeys();
    LeafInside(ARTIFACT_FIELDS, v, 0);
    LeafInside(ARTIFACT_FIELDS, v, 1);
  }

  lemma LeafInside(fields: seq<Field>, w: Json, i: nat)
    requires DistinctKeys(fields) && i < |fields| && Read(Record(fields), w) == Some(w)
    requires Plain(fields[i].schema) && fields[i].presence.Required?
    ensures Lookup(MembersOf(w), fields[i].key).Some? && Leaf(fields[i].schema, Lookup(MembersOf(w), fields[i].key).value)
  {
    LookupOutput(fields, w.members, i);
  }

  lemma ArtifactItems(w: Json)
    requires Read(Record(REPORT_FIELDS), w) == Some(w)
    ensures
      var items := ItemsOf(Lookup(MembersOf(w), ArtifactDigests));
      ReadItems(Record(ARTIFACT_FIELDS), items) == Some(items)
  {
    ReportKeys();
    ReportPositions();
    ListInside(REPORT_FIELDS, w, 9, Record(ARTIFACT_FIELDS));
  }

  lemma ListInside(fields: seq<Field>, w: Json, i: nat, element: Schema)
    requires DistinctKeys(fields) && i < |fields| && Read(Record(fields), w) == Some(w)
    requires fields[i].schema == ListOf(element) && fields[i].presence.Required?
    ensures
      var items := ItemsOf(Lookup(MembersOf(w), fields[i].key));
      ReadItems(element, items) == Some(items)
  {
    LookupOutput(fields, w.members, i);
    assert Lookup(w.members, fields[i].key).Some?;
  }

  lemma ReportPositions()
    ensures |REPORT_FIELDS| == 12
    ensures REPORT_FIELDS[9] == REPORT_CONTENTS[3] == Field(ArtifactDigests, Required, ListOf(Record(ARTIFACT_FIELDS)))
  {
  }

  lemma ItemsReadThemselves(element: Schema, items: seq<Json>, i: nat)
    requires ReadItems(element, items) == Some(items) && i < |items|
    ensures Read(element, items[i]) == Some(items[i])
  {
    EachItemIsRead(element, items, i);
  }

  /** The artifacts of every accepted report have well-formed hashes and paths inside the collection. */
  lemma AcceptedArtifactsAreHashed(v: Json, w: Json, digest: DigestOf)
    requires ValidateReport(v, digest) == Some(w)
    ensures Hashed(Artifacts(w)) && forall i :: 0 <= i < |Artifacts(w)| ==> StaysInside(Artifacts(w)[i].path)
  {
    ReportIsWellFormed();
    ReadAgain(Record(REPORT_FIELDS), v);
    StableArtifactsAreHashed(w);
  }

  lemma StableArtifactsAreHashed(w: Json)
    requires Read(Record(REPORT_FIELDS), w) == Some(w)
    ensures Hashed(Artifacts(w)) && forall i :: 0 <= i < |Artifacts(w)| ==> StaysInside(Artifacts(w)[i].path)
  {
    ArtifactItems(w);
    var items := ItemsOf(Lookup(MembersOf(w), ArtifactDigests));
    forall i | 0 <= i < |items|
      ensures HexDigits(Artifacts(w)[i].sha256, 64) && StaysInside(Artifacts(w)[i].path)
    {
      ItemsReadThemselves(Record(ARTIFACT_FIELDS), items, i);
      ArtifactIsHashed(items[i]);
    }
  }

  /** `collectionDigestFor`, with a given hash and path order. */
  function CollectionDigestFor(hash: string -> string, le: Order): DigestOf {
    a => hash(Preimage(a, le))
  }

  predicate Unambiguous(a: seq<Artifact>) {
    AllClean(a) && DistinctPaths(a)
  }

  /**
   Two accepted reports `w` and `w'` with one collection digest list the same artifacts, when
   their paths are distinct and hold no line boundary, and the hash separates the two texts.
   */
  lemma CollectionDigestBindsArtifacts(v: Json, w: Json, v': Json, w': Json, le: Order, hash: string -> string)
    requires TotalOrder(le)
    requires ValidateReport(v, CollectionDigestFor(hash, le)) == Some(w)
    requires ValidateReport(v', CollectionDigestFor(hash, le)) == Some(w')
    requires Unambiguous(Artifacts(w)) && Unambiguous(Artifacts(w'))
    requires hash(Preimage(Artifacts(w), le)) == hash(Preimage(Artifacts(w'), le)) ==>
               Preimage(Artifacts(w), le) == Preimage(Artifacts(w'), le)
    ensures Lookup(MembersOf(w), CollectionDigest) == Lookup(MembersOf(w'), CollectionDigest) <==>
            multiset(Artifacts(w)) == multiset(Artifacts(w'))
  {
    AcceptedArtifactsAreHashed(v, w, CollectionDigestFor(hash, le));
    AcceptedArtifactsAreHashed(v', w', CollectionDigestFor(hash, le));
    DigestIdentifiesEntries(Artifacts(w), Artifacts(w'), le, hash);
  }
}
