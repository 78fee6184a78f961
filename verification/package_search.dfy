// Search suggestions: edit distance by two rows, and the nearest catalogue name.
module PackageSearch {
  import opened Sequences
  import opened Text

  // ------------------------------------------------------------ edit distance

  function Min(a: nat, b: nat): nat {
    if a <= b then a else b
  }

  /** The recursive edit distance. */
  function Distance(left: string, right: string): nat
    decreases |left| + |right|
  {
    if left == "" then |right|
    else if right == "" then |left|
    else
      var l, r := left[..|left| - 1], right[..|right| - 1];
      Min(Min(Distance(l, right) + 1, Distance(left, r) + 1),
          Distance(l, r) + if left[|left| - 1] == right[|right| - 1] then 0 else 1)
  }

  /** One place of an alignment of two strings. */
  datatype Edit = Keep(c: char) | Change(from: char, to: char) | Add(c: char) | Drop(c: char)

  /** What an edit takes from the left string and gives to the right one, and its price. */
  function Taken(e: Edit): string {
    match e case Keep(c) => [c] case Change(from, _) => [from] case Add(_) => "" case Drop(c) => [c]
  }

  function Given(e: Edit): string {
    match e case Keep(c) => [c] case Change(_, to) => [to] case Add(c) => [c] case Drop(_) => ""
  }

  function Price(e: Edit): nat {
    if e.Keep? then 0 else 1
  }

  function Source(script: seq<Edit>): string {
    if script == [] then "" else Source(script[..|script| - 1]) + Taken(script[|script| - 1])
  }

  function Target(script: seq<Edit>): string {
    if script == [] then "" else Target(script[..|script| - 1]) + Given(script[|script| - 1])
  }

  function Cost(script: seq<Edit>): nat {
    if script == [] then 0 else Cost(script[..|script| - 1]) + Price(script[|script| - 1])
  }

  /** script edits left into right. */
  ghost predicate Edits(script: seq<Edit>, left: string, right: string) {
    Source(script) == left && Target(script) == right
  }

  lemma ExtendScript(script: seq<Edit>, e: Edit)
    ensures Cost(script + [e]) == Cost(script) + Price(e)
    ensures Source(script + [e]) == Source(script) + Taken(e) && Target(script + [e]) == Target(script) + Given(e)
  {
    hide Taken, Given, Price;
    assert (script + [e])[..|script|] == script;
  }

  lemma OneMoreChar(left: string, right: string, x: char, y: char)
    ensures Distance(left + [x], right) <= Distance(left, right) + 1
    ensures Distance(left, right + [y]) <= Distance(left, right) + 1
    ensures Distance(left + [x], right + [y]) <= Distance(left, right) + if x == y then 0 else 1
  {
    assert (left + [x])[..|left|] == left && (right + [y])[..|right|] == right;
  }

  /** One edit changes the distance by its price at most. */
  lemma OneEdit(left: string, right: string, e: Edit)
    ensures Distance(left + Taken(e), right + Given(e)) <= Distance(left, right) + Price(e)
  {
    var x := if e.Change? then e.from else e.c;
    var y := if e.Change? then e.to else e.c;
    OneMoreChar(left, right, x, y);
    assert left + "" == left && right + "" == right;
  }

  /** The recursion at the last characters. */
  lemma LastStep(left: string, right: string)
    ensures left != "" && right == "" ==> Distance(left, right) == Distance(left[..|left| - 1], right) + 1
    ensures left == "" && right != "" ==> Distance(left, right) == Distance(left, right[..|right| - 1]) + 1
    ensures left != "" && right != "" ==>
              var l, r := left[..|left| - 1], right[..|right| - 1];
              || Distance(left, right) == Distance(l, right) + 1 || Distance(left, right) == Distance(left, r) + 1
              || Distance(left, right) == Distance(l, r) + if left[|left| - 1] == right[|right| - 1] then 0 else 1
  {
  }

  lemma LastChar(s: string)
    ensures s != "" ==> s == s[..|s| - 1] + [s[|s| - 1]]
    ensures s == s + ""
  {
  }

  /** The last step of the recursion, as an edit of the shorter strings. */
  lemma LastEdit(left: string, right: string) returns (l: string, r: string, e: Edit)
    requires left != "" || right != ""
    ensures left == l + Taken(e) && right == r + Given(e) && |l| + |r| < |left| + |right|
    ensures Distance(left, right) == Distance(l, r) + Price(e)
  {
    LastStep(left, right);
    LastChar(left);
    LastChar(right);
    hide Distance;
    l, r := left, right;
    if right == "" {
      l := left[..|left| - 1];
      e := Drop(left[|left| - 1]);
    } else if left == "" {
      r := right[..|right| - 1];
      e := Add(right[|right| - 1]);
    } else {
      var x, y := left[|left| - 1], right[|right| - 1];
      if Distance(left, right) == Distance(left[..|left| - 1], right) + 1 {
        l := left[..|left| - 1];
        e := Drop(x);
      } else if Distance(left, right) == Distance(left, right[..|right| - 1]) + 1 {
        r := right[..|right| - 1];
        e := Add(y);
      } else {
        l, r := left[..|left| - 1], right[..|right| - 1];
        e := if x == y then Keep(x) else Change(x, y);
      }
    }
  }

  /** Some script has the distance as its cost. */
  lemma {:induction false} BestScript(left: string, right: string) returns (script: seq<Edit>)
    ensures Edits(script, left, right) && Cost(script) == Distance(left, right)
    decreases |left| + |right|
  {
    script := [];
    if left != "" || right != "" {
      var l, r, e := LastEdit(left, right);
      script := BestScript(l, r);
      ExtendScript(script, e);
      script := script + [e];
    }
  }

  /** No script is cheaper than the distance. */
  lemma {:induction false} NoCheaperScript(script: seq<Edit>)
    ensures Distance(Source(script), Target(script)) <= Cost(script)
  {
    if script != [] {
      var rest := script[..|script| - 1];
      NoCheaperScript(rest);
      OneEdit(Source(rest), Target(rest), script[|script| - 1]);
      hide Distance, Taken, Given, Price;
    }
  }

  /** The distance is the least cost of an edit script. */
  lemma DistanceIsLeastCost(left: string, right: string)
    ensures exists script :: Edits(script, left, right) && Cost(script) == Distance(left, right)
    ensures forall script :: Edits(script, left, right) ==> Distance(left, right) <= Cost(script)
  {
    var script := BestScript(left, right);
    forall other | Edits(other, left, right) ensures Distance(left, right) <= Cost(other) {
      NoCheaperScript(other);
    }
  }

  lemma {:induction false} Symmetric(left: string, right: string)
    ensures Distance(left, right) == Distance(right, left)
    decreases |left| + |right|
  {
    if left != "" && right != "" {
      Symmetric(left[..|left| - 1], right);
      Symmetric(left, right[..|right| - 1]);
      Symmetric(left[..|left| - 1], right[..|right| - 1]);
    }
  }

  lemma {:induction false} FreeScriptKeeps(script: seq<Edit>)
    requires Cost(script) == 0
    ensures Source(script) == Target(script)
  {
    if script != [] {
      FreeScriptKeeps(script[..|script| - 1]);
    }
  }

  lemma {:induction false} SelfDistance(s: string)
    ensures Distance(s, s) == 0
    decreases |s|
  {
    if s != "" {
      SelfDistance(s[..|s| - 1]);
    }
  }

  /** An edit that gives one character and an edit that takes it. */
  lemma EditsCompose(left: string, right: string, e: Edit, d: Edit)
    requires Given(e) == Taken(d) && Given(e) != ""
    ensures Distance(left + Taken(e), right + Given(d)) <= Distance(left, right) + Price(e) + Price(d)
  {
    var x := if e.Change? then e.from else e.c;
    var z := if d.Change? then d.to else d.c;
    OneMoreChar(left, right, x, z);
    assert left + "" == left && right + "" == right;
  }

  lemma {:induction false} ScriptsCompose(first: seq<Edit>, second: seq<Edit>)
    requires Target(first) == Source(second)
    ensures Distance(Source(first), Target(second)) <= Cost(first) + Cost(second)
    decreases |first| + |second|
  {
    if first == [] {
      NoCheaperScript(second);
    } else if second == [] {
      NoCheaperScript(first);
    } else {
      var f, s := first[..|first| - 1], second[..|second| - 1];
      var e, d := first[|first| - 1], second[|second| - 1];
      if e.Drop? {
        assert Target(first) == Target(f);
        ScriptsCompose(f, second);
        OneMoreChar(Source(f), Target(second), e.c, e.c);
      } else if d.Add? {
        assert Source(second) == Source(s);
        ScriptsCompose(first, s);
        OneMoreChar(Source(first), Target(s), d.c, d.c);
      } else {
        LastOfBoth(Target(f), Given(e), Source(s), Taken(d));
        ScriptsCompose(f, s);
        EditsCompose(Source(f), Target(s), e, d);
      }
      hide Distance;
    }
  }

  lemma LastOfBoth(a: string, x: string, b: string, y: string)
    requires |x| == 1 && |y| == 1 && a + x == b + y
    ensures a == b && x == y
  {
    assert (a + x)[..|a|] == a && (b + y)[..|b|] == b;
    assert (a + x)[|a|] == x[0] && (b + y)[|b|] == y[0];
  }

  /** The distance is a metric. */
  lemma DistanceIsMetric(a: string, b: string, c: string)
    ensures Distance(a, b) == 0 <==> a == b
    ensures Distance(a, b) == Distance(b, a)
    ensures Distance(a, c) <= Distance(a, b) + Distance(b, c)
  {
    Symmetric(a, b);
    SelfDistance(a);
    var first := BestScript(a, b);
    var second := BestScript(b, c);
    if Distance(a, b) == 0 {
      FreeScriptKeeps(first);
    }
    ScriptsCompose(first, second);
  }

  /** The place of two rows in the table of distances between prefixes. */
  ghost predicate Row(row: array<nat>, left: string, right: string, i: nat, width: nat)
    requires i <= |left| && width <= |right| + 1 == row.Length
    reads row
  {
    forall j :: 0 <= j < width ==> row[j] == Distance(left[..i], right[..j])
  }

  lemma TableStep(left: string, right: string, i: nat, j: nat)
    requires 0 < i <= |left| && 0 < j <= |right|
    ensures Distance(left[..i], right[..j]) ==
            Min(Min(Distance(left[..i - 1], right[..j]) + 1, Distance(left[..i], right[..j - 1]) + 1),
                Distance(left[..i - 1], right[..j - 1]) + if left[i - 1] == right[j - 1] then 0 else 1)
  {
    hide Distance, Min;
    var l, r := left[..i], right[..j];
    assert l[..i - 1] == left[..i - 1] && r[..j - 1] == right[..j - 1];
    assert l[i - 1] == left[i - 1] && r[j - 1] == right[j - 1];
    DistanceStep(l, r);
  }

  lemma DistanceStep(left: string, right: string)
    requires left != "" && right != ""
    ensures var l, r := left[..|left| - 1], right[..|right| - 1];
            Distance(left, right) ==
            Min(Min(Distance(l, right) + 1, Distance(left, r) + 1),
                Distance(l, r) + if left[|left| - 1] == right[|right| - 1] then 0 else 1)
  {
  }

  /** The inner loop: one row from the one above it. */
  method FillRow(left: string, right: string, leftIndex: nat, previous: array<nat>, current: array<nat>)
    requires 0 < leftIndex <= |left| && previous.Length == current.Length == |right| + 1 && previous != current
    requires Row(previous, left, right, leftIndex - 1, |right| + 1)
    modifies current
    ensures Row(current, left, right, leftIndex, |right| + 1)
  {
    hide Distance;
    current[0] := leftIndex;
    EmptyDistance(left[..leftIndex]);
    assert right[..0] == "";
    for rightIndex := 1 to |right| + 1
      invariant forall j :: 0 <= j <= |right| ==> previous[j] == Distance(left[..leftIndex - 1], right[..j])
      invariant forall j :: 0 <= j < rightIndex ==> current[j] == Distance(left[..leftIndex], right[..j])
    {
      TableStep(left, right, leftIndex, rightIndex);
      var substitutionCost := if left[leftIndex - 1] == right[rightIndex - 1] then 0 else 1;
      current[rightIndex] := Min(Min(previous[rightIndex] + 1, current[rightIndex - 1] + 1), previous[rightIndex - 1] + substitutionCost);
    }
  }

  /** levenshtein_distance: two rows, swapped after each character of left. */
  method LevenshteinDistance(left: string, right: string) returns (distance: nat)
    ensures distance == Distance(left, right)
  {
    if |left| == 0 {
      return |right|;
    }
    if |right| == 0 {
      return |left|;
    }
    var previous := new nat[|right| + 1](_ => 0);
    var current := new nat[|right| + 1](_ => 0);
    for index := 0 to |right| + 1
      invariant forall j :: 0 <= j < index ==> previous[j] == j
    {
      previous[index] := index;
    }
    assert left[..0] == "";
    assert Row(previous, left, right, 0, |right| + 1);
    hide Distance, Row;
    for leftIndex := 1 to |left| + 1
      invariant previous.Length == current.Length == |right| + 1 && previous != current
      invariant fresh(previous) && fresh(current)
      invariant Row(previous, left, right, leftIndex - 1, |right| + 1)
    {
      FillRow(left, right, leftIndex, previous, current);
      previous, current := current, previous;
    }
    RowEnd(previous, left, right);
    return previous[|right|];
  }

  lemma RowEnd(row: array<nat>, left: string, right: string)
    requires row.Length == |right| + 1 && Row(row, left, right, |left|, |right| + 1)
    ensures row[|right|] == Distance(left, right)
  {
    assert left[..|left|] == left && right[..|right|] == right;
  }

  lemma EmptyDistance(left: string)
    ensures Distance(left, "") == |left|
  {
  }

  // ------------------------------------------------------------ did you mean

  datatype PackageInfo = PackageInfo(name: string, packageId: string)

  /** display_name_for_score, lower-cased. */
  function Candidate(info: PackageInfo): string {
    ToLower(if info.name != "" then info.name else info.packageId)
  }

  function Limit(primary: string): nat {
    if |primary| <= 4 then 1 else 2
  }

  /** name is another catalogue name close enough to the first search term. */
  ghost predicate Near(catalog: seq<PackageInfo>, primary: string, name: string) {
    && name != "" && name != primary && Distance(primary, name) <= Limit(primary)
    && Listed(catalog, name)
  }

  ghost predicate Listed(catalog: seq<PackageInfo>, name: string) {
    exists k :: 0 <= k < |catalog| && Candidate(catalog[k]) == name
  }

  /** Near names are the lower-cased names of the catalogue, other than the word itself, at distance one at most from a
      word of up to four characters, and at distance two at most from a longer one. */
  lemma NearIs(catalog: seq<PackageInfo>, primary: string, name: string)
    ensures Near(catalog, primary, name) <==>
            && name != "" && name != primary
            && (|primary| <= 4 ==> Distance(primary, name) <= 1) && (|primary| > 4 ==> Distance(primary, name) <= 2)
            && exists info :: info in catalog && name == ToLower(if info.name == "" then info.packageId else info.name)
  {
    hide Distance, ToLower;
    if info :| info in catalog && name == ToLower(if info.name == "" then info.packageId else info.name) {
      var k :| 0 <= k < |catalog| && catalog[k] == info;
      assert Candidate(catalog[k]) == name;
    }
  }

  /** a is nearer to primary than b, or as near and lexicographically smaller. */
  predicate Preferred(primary: string, a: string, b: string) {
    Distance(primary, a) < Distance(primary, b) || (Distance(primary, a) == Distance(primary, b) && StringLess(a, b))
  }

  /** name is the preferred one of all near names. */
  ghost predicate Best(catalog: seq<PackageInfo>, primary: string, name: string) {
    Near(catalog, primary, name) && forall other :: Near(catalog, primary, other) && other != name ==> Preferred(primary, name, other)
  }

  lemma BestIsUnique(catalog: seq<PackageInfo>, primary: string, a: string, b: string)
    requires Best(catalog, primary, a) && Best(catalog, primary, b)
    ensures a == b
  {
    if StringLess(a, b) && StringLess(b, a) {
      StringLessTransitive(a, b, a);
    }
    StringLessIrreflexive(a);
    hide Near, Distance, StringLess;
  }

  /** The map of near names with their distances. */
  method NearNames(catalog: seq<PackageInfo>, primary: string) returns (bestDistance: map<string, nat>)
    ensures forall name :: name in bestDistance <==> Near(catalog, primary, name)
    ensures forall name :: name in bestDistance ==> bestDistance[name] == Distance(primary, name)
    ensures forall name :: name in bestDistance ==> bestDistance[name] <= if |primary| <= 4 then 1 else 2
  {
    hide Distance, Candidate;
    bestDistance := map[];
    for k := 0 to |catalog|
      invariant forall name :: name in bestDistance <==> Near(catalog[..k], primary, name)
      invariant forall name :: name in bestDistance ==> bestDistance[name] == Distance(primary, name)
    {
      var candidate := Candidate(catalog[k]);
      NearMore(catalog, primary, k);
      if candidate == "" || candidate == primary {
        continue;
      }
      var distance := LevenshteinDistance(primary, candidate);
      if distance > Limit(primary) {
        continue;
      }
      if candidate !in bestDistance || distance < bestDistance[candidate] {
        bestDistance := bestDistance[candidate := distance];
      }
    }
    assert catalog[..|catalog|] == catalog;
  }

  lemma NearMore(catalog: seq<PackageInfo>, primary: string, k: nat)
    requires k < |catalog|
    ensures forall name :: Near(catalog[..k + 1], primary, name) <==>
              Near(catalog[..k], primary, name) ||
              (name == Candidate(catalog[k]) && name != "" && name != primary && Distance(primary, name) <= Limit(primary))
  {
    hide Distance, Candidate;
    forall name ensures Listed(catalog[..k + 1], name) <==> Listed(catalog[..k], name) || Candidate(catalog[k]) == name {
      assert catalog[..k + 1][k] == catalog[k];
      if j :| 0 <= j < k && Candidate(catalog[..k][j]) == name {
        assert catalog[..k + 1][j] == catalog[..k][j];
      }
    }
  }

  lemma PreferredTransitive(primary: string, a: string, b: string, c: string)
    requires Preferred(primary, a, b) && Preferred(primary, b, c)
    ensures Preferred(primary, a, c)
  {
    hide Distance, StringLess;
    if StringLess(a, b) && StringLess(b, c) {
      StringLessTransitive(a, b, c);
    }
  }

  // -------------------------------------------------------------- search terms

  function FirstSpace(s: string): (k: nat)
    ensures k <= |s| && (k < |s| ==> IsSpace(s[k])) && forall j :: 0 <= j < k ==> !IsSpace(s[j])
  {
    if s == "" || IsSpace(s[0]) then 0 else 1 + FirstSpace(s[1..])
  }

  /** The words of a prompt, lower-cased. */
  function Words(prompt: string): seq<string>
    decreases |prompt|
  {
    if prompt == "" then []
    else if IsSpace(prompt[0]) then Words(prompt[1..])
    else
      var k := FirstSpace(prompt);
      [ToLower(prompt[..k])] + Words(prompt[k..])
  }

  lemma {:induction false} FirstSpaceIs(word: string, rest: string)
    requires forall j :: 0 <= j < |word| ==> !IsSpace(word[j])
    requires rest == "" || IsSpace(rest[0])
    ensures FirstSpace(word + rest) == |word|
  {
    if word == "" {
      assert word + rest == rest;
    } else {
      FirstSpaceIs(word[1..], rest);
      assert (word + rest)[1..] == word[1..] + rest;
    }
  }

  lemma WordThenSpace(word: string, rest: string)
    requires word != "" && forall j :: 0 <= j < |word| ==> !IsSpace(word[j])
    requires rest == "" || IsSpace(rest[0])
    ensures Words(word + rest) == [ToLower(word)] + Words(rest)
  {
    FirstSpaceIs(word, rest);
    assert (word + rest)[..|word|] == word && (word + rest)[|word|..] == rest;
  }

  lemma SpaceEndsWord(terms: seq<string>, current: string, prompt: string, k: nat)
    requires k < |prompt| && IsSpace(prompt[k]) && IsWord(current)
    ensures terms + Words(current + prompt[k..]) ==
            (if current == "" then terms else terms + [ToLower(current)]) + Words("" + prompt[k + 1..])
  {
    assert prompt[k..][1..] == prompt[k + 1..] && "" + prompt[k + 1..] == prompt[k + 1..];
    if current == "" {
      assert current + prompt[k..] == prompt[k..];
    } else {
      WordThenSpace(current, prompt[k..]);
      Associate(terms, [ToLower(current)], Words(prompt[k + 1..]));
    }
  }

  lemma CharExtendsWord(current: string, prompt: string, k: nat)
    requires k < |prompt|
    ensures Words(current + prompt[k..]) == Words((current + [prompt[k]]) + prompt[k + 1..])
  {
    assert current + prompt[k..] == (current + [prompt[k]]) + prompt[k + 1..];
  }

  ghost predicate IsWord(s: string) {
    forall j :: 0 <= j < |s| ==> !IsSpace(s[j])
  }

  lemma LongerWord(s: string, c: char)
    requires IsWord(s) && !IsSpace(c)
    ensures IsWord(s + [c])
  {
  }

  lemma LastWord(current: string, prompt: string)
    requires IsWord(current)
    ensures Words(current + prompt[|prompt|..]) == if current == "" then [] else [ToLower(current)]
  {
    assert current + prompt[|prompt|..] == current + "";
    if current != "" {
      WordThenSpace(current, "");
    }
  }

  /** package_search_terms_from_prompt. */
  method TermsFromPrompt(prompt: string) returns (terms: seq<string>)
    ensures terms == Words(prompt)
  {
    terms := [];
    var current := "";
    assert "" + prompt[0..] == prompt;
    assert IsWord("");
    hide Words, IsWord, ToLower, IsSpace;
    for k := 0 to |prompt|
      invariant IsWord(current)
      invariant terms + Words(current + prompt[k..]) == Words(prompt)
    {
      var character := prompt[k];
      if IsSpace(character) {
        SpaceEndsWord(terms, current, prompt, k);
        if current != "" {
          terms := terms + [ToLower(current)];
          current := "";
        }
        continue;
      }
      CharExtendsWord(current, prompt, k);
      LongerWord(current, character);
      current := current + [character];
    }
    LastWord(current, prompt);
    if current != "" {
      terms := terms + [ToLower(current)];
    }
  }

  /** package_search_did_you_mean_suggestion: the preferred near name of the first word of the prompt, in whatever
      order the map is iterated. */
  method DidYouMean(catalog: seq<PackageInfo>, prompt: string) returns (suggestion: Option<string>)
    ensures suggestion.Some? ==> Words(prompt) != [] && |Words(prompt)[0]| >= 2 && Best(catalog, Words(prompt)[0], suggestion.value)
    ensures suggestion.None? ==> Words(prompt) == [] || |Words(prompt)[0]| < 2 || forall name :: !Near(catalog, Words(prompt)[0], name)
  {
    var terms := TermsFromPrompt(prompt);
    hide Words;
    if terms == [] || catalog == [] {
      return None;
    }
    var primary := terms[0];
    if |primary| < 2 {
      return None;
    }
    hide Distance, Near, StringLess;
    var bestDistance := NearNames(catalog, primary);
    if bestDistance.Keys == {} {
      assert forall name :: name !in bestDistance;
      return None;
    }
    var best: Option<nat> := None;
    var name := "";
    var rest := bestDistance.Keys;
    while rest != {}
      invariant rest <= bestDistance.Keys
      invariant best.None? <==> rest == bestDistance.Keys
      invariant best.Some? ==> name in bestDistance && best.value == bestDistance[name] &&
                               forall other :: other in bestDistance && other !in rest && other != name ==> Preferred(primary, name, other)
    {
      var next :| next in rest;
      ghost var before := name;
      if best.None? || bestDistance[next] < best.value || (bestDistance[next] == best.value && StringLess(next, name)) {
        if best.Some? {
          forall other | other in bestDistance && other !in rest && other != next ensures Preferred(primary, next, other) {
            if other != name {
              PreferredTransitive(primary, next, name, other);
            }
          }
        }
        best, name := Some(bestDistance[next]), next;
      } else {
        StringLessTotal(next, name);
      }
      rest := rest - {next};
    }
    return Some(name);
  }
}
