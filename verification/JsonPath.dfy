/**
 The small path language for JSON documents.  A path is evaluated by rewriting brackets to dots and splitting
 at dots; that this reads every supported path as the sequence of steps it spells is proved here.
 */
module JsonPath {
  import opened Common
  import opened Json

  /** A step by name, or by a number in brackets, as spelled. */
  datatype Step = Name(text: string) | Index(text: string)

  // ----- The language ------------------------------------------------------------------------------

  predicate StartsName(c: char) {
    'A' <= c <= 'Z' || 'a' <= c <= 'z' || c == '_'
  }

  predicate IsDigit(c: char) {
    '0' <= c <= '9'
  }

  predicate InName(c: char) {
    StartsName(c) || IsDigit(c) || c == '-'
  }

  predicate IsName(s: string) {
    s != "" && StartsName(s[0]) && forall i :: 0 <= i < |s| ==> InName(s[i])
  }

  predicate IsNumber(s: string) {
    s != "" && forall i :: 0 <= i < |s| ==> IsDigit(s[i])
  }

  predicate WellSpelled(step: Step) {
    match step
    case Name(text) => IsName(text)
    case Index(text) => IsNumber(text)
  }

  predicate AllWellSpelled(steps: seq<Step>) {
    forall i :: 0 <= i < |steps| ==> WellSpelled(steps[i])
  }

  function SpellStep(step: Step): string {
    match step
    case Name(text) => "." + text
    case Index(text) => "[" + text + "]"
  }

  function SpellSteps(steps: seq<Step>): string {
    if steps == [] then "" else SpellStep(steps[0]) + SpellSteps(steps[1..])
  }

  function Spell(steps: seq<Step>): string {
    "$" + SpellSteps(steps)
  }

  /** How many characters from the front belong to the class. */
  function Span(s: string, inside: char -> bool): (n: nat)
    ensures n <= |s|
    ensures forall i :: 0 <= i < n ==> inside(s[i])
    ensures n < |s| ==> !inside(s[n])
  {
    if s != "" && inside(s[0]) then 1 + Span(s[1..], inside) else 0
  }

  /** A name in front, and the rest. */
  function NamePrefix(s: string): (r: Option<(string, string)>)
    ensures r.Some? ==> IsName(r.value.0) && s == r.value.0 + r.value.1
  {
    if s == "" || !StartsName(s[0]) then None
    else
      var n := Span(s, InName);
      Some((s[..n], s[n..]))
  }

  /** A number with its closing bracket in front, and the rest. */
  function NumberPrefix(s: string): (r: Option<(string, string)>)
    ensures r.Some? ==> IsNumber(r.value.0) && s == r.value.0 + "]" + r.value.1
  {
    var n := Span(s, IsDigit);
    if n == 0 || n == |s| || s[n] != ']' then None else Some((s[..n], s[n + 1..]))
  }

  lemma Rejoined(s: string, front: string, text: string, rest: string)
    requires |front| == 1 && s != "" && s[0] == front[0] && s[1..] == text + rest
    ensures s == front + text + rest
  {
    assert s == front + s[1..];
  }

  /** The first step of a spelling and what follows it: a name behind a dot or a number in brackets. */
  function FirstStep(s: string): (first: Option<(Step, string)>)
    ensures first.Some? ==> WellSpelled(first.value.0) && s == SpellStep(first.value.0) + first.value.1
  {
    if s == "" then None
    else if s[0] == '.' then
      var r := NamePrefix(s[1..]);
      if r.None? then None else Rejoined(s, ".", r.value.0, r.value.1); Some((Name(r.value.0), r.value.1))
    else if s[0] == '[' then
      var r := NumberPrefix(s[1..]);
      if r.None? then None else Rejoined(s, "[", r.value.0 + "]", r.value.1); Some((Index(r.value.0), r.value.1))
    else None
  }

  function ParseSteps(s: string): Option<seq<Step>>
    decreases |s|
  {
    if s == "" then Some([])
    else
      var first := FirstStep(s);
      if first.None? then None
      else
        assert |SpellStep(first.value.0)| > 0;
        var rest := ParseSteps(first.value.1);
        if rest.None? then None else Some([first.value.0] + rest.value)
  }

  function Parse(path: string): Option<seq<Step>> {
    if path != "" && path[0] == '$' then ParseSteps(path[1..]) else None
  }

  lemma {:induction false} ParsedIsSpelled(s: string)
    requires ParseSteps(s).Some?
    ensures AllWellSpelled(ParseSteps(s).value) && SpellSteps(ParseSteps(s).value) == s
    decreases |s|
  {
    hide FirstStep;
    if s != "" {
      ParsedIsSpelled(FirstStep(s).value.1);
    }
  }

  lemma {:induction false} SpanStopsAt(text: string, rest: string, inside: char -> bool)
    requires (forall i :: 0 <= i < |text| ==> inside(text[i])) && (rest != "" ==> !inside(rest[0]))
    ensures Span(text + rest, inside) == |text|
  {
    if text == "" {
      assert text + rest == rest;
    } else {
      SpanStopsAt(text[1..], rest, inside);
      assert (text + rest)[1..] == text[1..] + rest;
    }
  }

  lemma RestStartsOutside(steps: seq<Step>)
    ensures SpellSteps(steps) != "" ==> SpellSteps(steps)[0] == '.' || SpellSteps(steps)[0] == '['
  {
  }

  lemma NameInFront(text: string, rest: string)
    requires IsName(text) && (rest != "" ==> !InName(rest[0]))
    ensures NamePrefix(text + rest) == Some((text, rest))
  {
    SpanStopsAt(text, rest, InName);
    assert (text + rest)[..|text|] == text && (text + rest)[|text|..] == rest;
  }

  lemma NumberInFront(text: string, rest: string)
    requires IsNumber(text)
    ensures NumberPrefix(text + "]" + rest) == Some((text, rest))
  {
    var s := text + "]" + rest;
    assert s == text + ("]" + rest);
    SpanStopsAt(text, "]" + rest, IsDigit);
    assert s[..|text|] == text && s[|text|] == ']' && s[|text| + 1..] == rest;
  }

  lemma InFront(front: string, text: string, rest: string)
    requires |front| == 1
    ensures var s := front + text + rest; s != "" && s[0] == front[0] && s[1..] == text + rest
  {
  }

  lemma SpellingStarts(step: Step, rest: string)
    requires WellSpelled(step) && (rest != "" ==> rest[0] == '.' || rest[0] == '[')
    ensures FirstStep(SpellStep(step) + rest) == Some((step, rest))
  {
    hide NamePrefix, NumberPrefix, IsName, IsNumber;
    var text := step.text;
    if step.Name? {
      NameInFront(text, rest);
      InFront(".", text, rest);
    } else {
      NumberInFront(text, rest);
      InFront("[", text + "]", rest);
      assert SpellStep(step) == "[" + (text + "]");
    }
  }

  lemma {:induction false} SpelledIsParsed(steps: seq<Step>)
    requires AllWellSpelled(steps)
    ensures ParseSteps(SpellSteps(steps)) == Some(steps)
  {
    hide FirstStep;
    if steps != [] {
      SpelledIsParsed(steps[1..]);
      RestStartsOutside(steps[1..]);
      assert WellSpelled(steps[0]);
      SpellingStarts(steps[0], SpellSteps(steps[1..]));
      assert steps == [steps[0]] + steps[1..] && SpellStep(steps[0]) != "";
      assert SpellSteps(steps) != "";
    }
  }

  /** The supported paths are the spellings of step sequences, and each spells only one. */
  lemma ParseInvertsSpell(path: string, steps: seq<Step>)
    ensures Parse(path) == Some(steps) <==> AllWellSpelled(steps) && Spell(steps) == path
  {
    if Parse(path) == Some(steps) {
      ParsedIsSpelled(path[1..]);
      assert path == "$" + path[1..];
    }
    if AllWellSpelled(steps) && Spell(steps) == path {
      SpelledIsParsed(steps);
      assert path[1..] == SpellSteps(steps);
    }
  }

  lemma ParseIsOnlyReading(path: string)
    ensures forall steps: seq<Step> {:trigger Spell(steps)} ::
              AllWellSpelled(steps) && Spell(steps) == path ==> Parse(path) == Some(steps)
    ensures Parse(path).Some? ==> AllWellSpelled(Parse(path).value) && Spell(Parse(path).value) == path
  {
    forall steps: seq<Step> {:trigger Spell(steps)} | AllWellSpelled(steps) && Spell(steps) == path
      ensures Parse(path) == Some(steps)
    {
      ParseInvertsSpell(path, steps);
    }
    if Parse(path).Some? {
      ParseInvertsSpell(path, Parse(path).value);
    }
  }

  // ----- Following steps -------------------------------------------------------------------------------

  function NumberOf(digits: string): nat
    requires forall i :: 0 <= i < |digits| ==> IsDigit(digits[i])
  {
    if digits == "" then 0
    else
      assert IsDigit(digits[|digits| - 1]);
      NumberOf(digits[..|digits| - 1]) * 10 + (digits[|digits| - 1] as int - '0' as int)
  }

  /** A member of an object under the step's text, an element of a list under its number, otherwise nothing. */
  function FollowStep(current: Json, step: Step): Json
    requires WellSpelled(step)
  {
    match current
    case Obj(members) => if step.text in members then members[step.text] else Null
    case Arr(items) => if step.Index? && NumberOf(step.text) < |items| then items[NumberOf(step.text)] else Null
    case _ => Null
  }

  function Follow(root: Json, steps: seq<Step>): Json
    requires AllWellSpelled(steps)
  {
    if steps == [] then root else FollowStep(Follow(root, steps[..|steps| - 1]), steps[|steps| - 1])
  }

  // ----- The evaluation by rewriting -----------------------------------------------------------------

  function Replace(s: string, from: char, to: string): string {
    if s == "" then "" else (if s[0] == from then to else [s[0]]) + Replace(s[1..], from, to)
  }

  function DropDots(s: string): string {
    if s != "" && s[0] == '.' then DropDots(s[1..]) else s
  }

  function DropLastDots(s: string): string {
    if s != "" && s[|s| - 1] == '.' then DropLastDots(s[..|s| - 1]) else s
  }

  function SplitAtDots(s: string): (parts: seq<string>)
    ensures parts != []
  {
    if s == "" then [""]
    else if s[0] == '.' then [""] + SplitAtDots(s[1..])
    else
      var rest := SplitAtDots(s[1..]);
      [[s[0]] + rest[0]] + rest[1..]
  }

  /** Reading a text as a decimal number, as far as it is one. */
  function Decimal(part: string): Option<nat> {
    if IsNumber(part) then Some(NumberOf(part)) else None
  }

  method JsonPathValue(root: Json, raw: string) returns (value: Option<Json>)
    ensures forall steps: seq<Step> {:trigger Spell(steps)} ::
              AllWellSpelled(steps) && Spell(steps) == Trim(raw) ==> value == Some(Follow(root, steps))
    ensures value.None? <==> forall steps: seq<Step> :: AllWellSpelled(steps) ==> Spell(steps) != Trim(raw)
    ensures forall steps: seq<Step> {:trigger Spell(steps)} ::
              AllWellSpelled(steps) && Spell(steps) == raw ==> value == Some(Follow(root, steps))
  {
    SpellingsAreTrimmed(raw);
    var path := Trim(raw);
    ParseIsOnlyReading(path);
    if Parse(path).None? {
      return None;
    }
    ghost var steps := Parse(path).value;
    ParseInvertsSpell(path, steps);
    if path == "$" {
      StepsOfDollar(steps);
      return Some(root);
    }
    RewritingSpells(steps);
    assert path[1..] == SpellSteps(steps);
    path := path[1..];
    path := Replace(path, '[', ".");
    path := Replace(path, ']', "");
    path := DropLastDots(DropDots(path));
    if path == "" {
      return Some(root);
    }
    var found := FollowParts(root, SplitAtDots(path), steps);
    value := Some(found);
  }

  /** Walks down by the parts of a path; the first miss ends it. */
  method FollowParts(root: Json, parts: seq<string>, ghost steps: seq<Step>) returns (value: Json)
    requires AllWellSpelled(steps) && parts == Texts(steps)
    ensures value == Follow(root, steps)
  {
    value := root;
    for i := 0 to |parts|
      invariant value == Follow(root, steps[..i])
    {
      StepOfFollow(root, steps, i);
      if parts[i] == "" {
        continue;
      }
      match value
      case Obj(members) =>
        if parts[i] !in members {
          NothingFollows(root, steps, i + 1);
          return Null;
        }
        value := members[parts[i]];
      case Arr(items) =>
        var index := Decimal(parts[i]);
        NamesAreNoNumbers(steps[i]);
        if index.None? || index.value >= |items| {
          NothingFollows(root, steps, i + 1);
          return Null;
        }
        value := items[index.value];
      case _ =>
        NothingFollows(root, steps, i + 1);
        return Null;
    }
    assert steps[..|steps|] == steps;
  }

  lemma StepOfFollow(root: Json, steps: seq<Step>, i: nat)
    requires AllWellSpelled(steps) && i < |steps|
    ensures WellSpelled(steps[i]) && steps[i].text != ""
    ensures Follow(root, steps[..i + 1]) == FollowStep(Follow(root, steps[..i]), steps[i])
  {
    assert WellSpelled(steps[i]) && steps[..i + 1][..i] == steps[..i];
  }

  lemma StepsOfDollar(steps: seq<Step>)
    requires Spell(steps) == "$"
    ensures steps == []
  {
    assert SpellSteps(steps) == Spell(steps)[1..];
  }

  lemma NamesAreNoNumbers(step: Step)
    requires WellSpelled(step)
    ensures IsNumber(step.text) <==> step.Index?
  {
  }

  /** After a miss every further step misses. */
  lemma {:induction false} NothingFollows(root: Json, steps: seq<Step>, i: nat)
    requires AllWellSpelled(steps) && i <= |steps| && Follow(root, steps[..i]) == Null
    ensures Follow(root, steps) == Null
    decreases |steps|
  {
    if i == |steps| {
      assert steps[..i] == steps;
    } else {
      var front := steps[..|steps| - 1];
      assert front[..i] == steps[..i];
      NothingFollows(root, front, i);
    }
  }

  /** The texts of the steps, each behind a dot. */
  function Dotted(steps: seq<Step>): string {
    if steps == [] then "" else "." + steps[0].text + Dotted(steps[1..])
  }

  function Texts(steps: seq<Step>): seq<string> {
    seq(|steps|, i requires 0 <= i < |steps| => steps[i].text)
  }

  lemma {:induction false} ReplaceConcat(s: string, t: string, from: char, to: string)
    ensures Replace(s + t, from, to) == Replace(s, from, to) + Replace(t, from, to)
  {
    if s == "" {
      assert s + t == t;
    } else {
      ReplaceConcat(s[1..], t, from, to);
      assert (s + t)[1..] == s[1..] + t;
      var head := if s[0] == from then to else [s[0]];
      assert Replace(s + t, from, to) == head + Replace(s[1..] + t, from, to);
      assert head + (Replace(s[1..], from, to) + Replace(t, from, to)) == (head + Replace(s[1..], from, to))
          + Replace(t, from, to);
    }
  }

  lemma {:induction false} ReplaceAbsent(s: string, from: char, to: string)
    requires forall i :: 0 <= i < |s| ==> s[i] != from
    ensures Replace(s, from, to) == s
  {
    if s != "" {
      ReplaceAbsent(s[1..], from, to);
      assert s == [s[0]] + s[1..];
    }
  }

  lemma PlainText(step: Step)
    requires WellSpelled(step)
    ensures step.text != "" && forall i ::
              0 <= i < |step.text| ==> step.text[i] != '.' && step.text[i] != '[' && step.text[i] != ']'
  {
  }

  lemma RewriteStep(step: Step)
    requires WellSpelled(step)
    ensures Replace(Replace(SpellStep(step), '[', "."), ']', "") == "." + step.text
  {
    PlainText(step);
    ReplaceAbsent(step.text, '[', ".");
    ReplaceAbsent(step.text, ']', "");
    if step.Name? {
      assert Replace(".", '[', ".") == "." && Replace(".", ']', "") == ".";
      ReplaceConcat(".", step.text, '[', ".");
      ReplaceConcat(".", step.text, ']', "");
    } else {
      ReplaceConcat("[" + step.text, "]", '[', ".");
      ReplaceConcat("[", step.text, '[', ".");
      assert Replace("[", '[', ".") == "." && Replace("]", '[', ".") == "]";
      ReplaceConcat("." + step.text, "]", ']', "");
      ReplaceConcat(".", step.text, ']', "");
      assert Replace(".", ']', "") == "." && Replace("]", ']', "") == "";
    }
  }

  lemma {:induction false} RewriteSteps(steps: seq<Step>)
    requires AllWellSpelled(steps)
    ensures Replace(Replace(SpellSteps(steps), '[', "."), ']', "") == Dotted(steps)
  {
    if steps != [] {
      assert WellSpelled(steps[0]);
      RewriteStep(steps[0]);
      RewriteSteps(steps[1..]);
      ReplaceConcat(SpellStep(steps[0]), SpellSteps(steps[1..]), '[', ".");
      ReplaceConcat(Replace(SpellStep(steps[0]), '[', "."), Replace(SpellSteps(steps[1..]), '[', "."), ']', "");
    }
  }

  lemma SplitFirst(c: char, s: string)
    ensures c != '.' ==> SplitAtDots([c] + s) == [[c] + SplitAtDots(s)[0]] + SplitAtDots(s)[1..]
    ensures c == '.' ==> SplitAtDots([c] + s) == [""] + SplitAtDots(s)
    ensures SplitAtDots("") == [""]
  {
    assert ([c] + s)[0] == c && ([c] + s)[1..] == s;
  }

  lemma FrontAndRest(text: string)
    requires text != ""
    ensures text == [text[0]] + text[1..]
  {
  }

  lemma {:induction false} SplitText(text: string, rest: string)
    requires forall i :: 0 <= i < |text| ==> text[i] != '.'
    requires rest != "" ==> rest[0] == '.'
    ensures SplitAtDots(text + rest) == if rest == "" then [text] else [text] + SplitAtDots(rest[1..])
  {
    hide SplitAtDots;
    if text == "" {
      assert text + rest == rest;
      SplitFirst('.', if rest == "" then "" else rest[1..]);
      if rest != "" {
        FrontAndRest(rest);
      }
    } else {
      SplitText(text[1..], rest);
      FrontAndRest(text);
      assert text + rest == [text[0]] + (text[1..] + rest);
      SplitFirst(text[0], text[1..] + rest);
    }
  }

  lemma DottedStarts(steps: seq<Step>)
    requires steps != []
    ensures Dotted(steps) != "" && Dotted(steps)[0] == '.' && Dotted(steps)[1..] == steps[0].text + Dotted(steps[1..])
    ensures steps[1..] == [] ==> Dotted(steps[1..]) == ""
    ensures steps[1..] != [] ==> Dotted(steps[1..]) != "" && Dotted(steps[1..])[0] == '.'
  {
    InFront(".", steps[0].text, Dotted(steps[1..]));
    if steps[1..] != [] {
      InFront(".", steps[1..][0].text, Dotted(steps[1..][1..]));
    }
  }

  lemma {:induction false} SplitDotted(steps: seq<Step>)
    requires AllWellSpelled(steps) && steps != []
    ensures SplitAtDots(Dotted(steps)[1..]) == Texts(steps)
  {
    PlainText(steps[0]);
    DottedStarts(steps);
    hide SplitAtDots, WellSpelled, Dotted;
    var text, rest := steps[0].text, Dotted(steps[1..]);
    SplitText(text, rest);
    if steps[1..] != [] {
      SplitDotted(steps[1..]);
      assert Texts(steps) == [text] + Texts(steps[1..]);
    } else {
      assert Texts(steps) == [text];
    }
  }

  lemma {:induction false} DottedEnds(steps: seq<Step>)
    requires AllWellSpelled(steps) && steps != []
    ensures |Dotted(steps)| > 1 && Dotted(steps)[|Dotted(steps)| - 1] != '.'
  {
    assert WellSpelled(steps[0]);
    PlainText(steps[0]);
    if steps[1..] != [] {
      DottedEnds(steps[1..]);
    }
  }

  /** Rewriting and splitting yields the texts of the steps. */
  lemma RewritingSpells(steps: seq<Step>)
    requires AllWellSpelled(steps)
    ensures var path := DropLastDots(DropDots(Replace(Replace(SpellSteps(steps), '[', "."), ']', "")));
            (path == "" <==> steps == []) && (steps != [] ==> SplitAtDots(path) == Texts(steps))
  {
    RewriteSteps(steps);
    if steps != [] {
      assert WellSpelled(steps[0]);
      PlainText(steps[0]);
      DottedEnds(steps);
      SplitDotted(steps);
      var dotted := Dotted(steps);
      assert dotted[1..][0] == steps[0].text[0];
      assert DropDots(dotted) == dotted[1..];
    }
  }

  /** The spelling of steps has no white space to lose. */
  lemma SpellingIsTrimmed(steps: seq<Step>)
    requires AllWellSpelled(steps)
    ensures Trim(Spell(steps)) == Spell(steps)
  {
    SpellingEnds(steps);
    TrimTrims(Spell(steps));
  }

  lemma SpellingsAreTrimmed(raw: string)
    ensures forall steps: seq<Step> {:trigger Spell(steps)} ::
              AllWellSpelled(steps) && Spell(steps) == raw ==> Trim(raw) == raw
  {
    forall steps: seq<Step> {:trigger Spell(steps)} | AllWellSpelled(steps) && Spell(steps) == raw
      ensures Trim(raw) == raw
    {
      SpellingIsTrimmed(steps);
    }
  }

  lemma {:induction false} SpellingEnds(steps: seq<Step>)
    requires AllWellSpelled(steps)
    ensures SpellSteps(steps) != "" ==> !IsSpace(SpellSteps(steps)[|SpellSteps(steps)| - 1])
  {
    if steps != [] {
      assert WellSpelled(steps[0]);
      PlainText(steps[0]);
      SpellingEnds(steps[1..]);
    }
  }
}
