// The library organizer's plan (apps/desktop/src/main/organizer.ts): every
// video file is parsed, matched against the library and given a target
// path root/Title/Season S/Title - Episode NNN.ext; a second pass demotes
// ready items that share a target. The directory walk and the renames are
// file-system work: the plan builder takes the collected file paths as input,
// and `path.join` is concatenation with '/'.
module Organizer {
  import opened Wrappers
  import opened Text
  import opened AnimeModel
  import FilenameParser

  // ----- sanitizeName -----

  /** The characters `[<>:"/\\|?*]` that cannot appear in a file name. */
  predicate IsForbidden(c: char) {
    c == '<' || c == '>' || c == ':' || c == '"' || c == '/' || c == '\\' || c == '|' || c == '?' || c == '*'
  }

  predicate NoForbidden(s: string) {
    forall k :: 0 <= k < |s| ==> !IsForbidden(s[k])
  }

  /** `replace(/[<>:"/\\|?*]+/g, '')`: the other characters, in order. */
  function RemoveForbidden(s: string): (r: string)
    ensures NoForbidden(r)
    ensures |r| <= |s|
    ensures forall k :: 0 <= k < |r| ==> exists j :: 0 <= j < |s| && s[j] == r[k]
    ensures NoForbidden(s) ==> r == s
  {
    if s == [] then []
    else if IsForbidden(s[0]) then RemoveForbidden(s[1..])
    else
      var rest := RemoveForbidden(s[1..]);
      assert forall k :: 0 < k < |[s[0]] + rest| ==> ([s[0]] + rest)[k] == rest[k - 1];
      [s[0]] + rest
  }

  /** Trimming keeps a contiguous part of the string. */
  lemma TrimKeepsNoForbidden(s: string)
    requires NoForbidden(s)
    ensures NoForbidden(Trim(s))
  {
    var a := LeadingSpace(s);
    var t1 := s[a..];
    assert TrimStart(s) == t1;
    var t2 := t1[..|t1| - TrailingSpace(t1)];
    assert Trim(s) == t2;
    forall k | 0 <= k < |t2|
      ensures !IsForbidden(t2[k])
    {
      assert t2[k] == s[a + k];
    }
  }

  /** A trimmed string is its own trim. */
  lemma TrimIdempotent(s: string)
    ensures Trim(Trim(s)) == Trim(s)
  {
    var t := Trim(s);
    if t != [] {
      FilenameParser.TrimUnspaced(t);
    }
  }

  /** `sanitizeName`: the forbidden characters removed, then trimmed. */
  function SanitizeName(name: string): (r: string)
    ensures NoForbidden(r)
    ensures r == [] || (!IsSpace(r[0]) && !IsSpace(r[|r| - 1]))
  {
    var removed := RemoveForbidden(name);
    TrimKeepsNoForbidden(removed);
    Trim(removed)
  }

  lemma SanitizeNameIdempotent(name: string)
    ensures SanitizeName(SanitizeName(name)) == SanitizeName(name)
  {
    var r := SanitizeName(name);
    assert RemoveForbidden(r) == r;
    TrimIdempotent(RemoveForbidden(name));
  }

  // ----- inferSeasonFromFilename -----

  /** `[\s._\-]`. */
  predicate IsSeparator(c: char) {
    IsSpace(c) || c == '.' || c == '_' || c == '-'
  }

  /** `(?:^|[\s._\-])s(\d{1,2})(?:[^0-9]|$)` with its 's' at position p: one or two digits and no third. */
  predicate SeasonTokenAt(t: string, p: nat)
    requires p < |t|
  {
    (p == 0 || IsSeparator(t[p - 1])) && t[p] == 's' && 1 <= DigitRun(t, p + 1) <= 2
  }

  /** The position of the leftmost season token at or after p. */
  function FirstSeasonToken(t: string, p: nat): (r: Option<nat>)
    requires p <= |t|
    ensures r.Some? ==> p <= r.value < |t| && SeasonTokenAt(t, r.value)
    ensures r.Some? ==> forall q :: p <= q < r.value ==> !SeasonTokenAt(t, q)
    ensures r.None? ==> forall q :: p <= q < |t| ==> !SeasonTokenAt(t, q)
    decreases |t| - p
  {
    if p == |t| then None
    else if SeasonTokenAt(t, p) then Some(p)
    else FirstSeasonToken(t, p + 1)
  }

  /** `season\s*(\d{1,2})` at position i: the word, any white space, then a digit. */
  predicate SeasonWordAt(t: string, i: nat) {
    LiteralAt(t, i, "season") && i + 6 + SpaceRun(t, i + 6) < |t| && IsDigit(t[i + 6 + SpaceRun(t, i + 6)])
  }

  /** The number a season word captures: its first one or two digits. */
  function SeasonWordValue(t: string, i: nat): (v: nat)
    requires SeasonWordAt(t, i)
    ensures v < 100
  {
    var j := i + 6 + SpaceRun(t, i + 6);
    var n := if DigitRun(t, j) < 2 then DigitRun(t, j) else 2;
    TwoDigitsBelowHundred(t, j, j + n);
    ValueAt(t, j, j + n)
  }

  /** The number a season token captures. */
  function SeasonTokenValue(t: string, p: nat): (v: nat)
    requires p < |t| && SeasonTokenAt(t, p)
    ensures v < 100
  {
    TwoDigitsBelowHundred(t, p + 1, p + 1 + DigitRun(t, p + 1));
    ValueAt(t, p + 1, p + 1 + DigitRun(t, p + 1))
  }

  /** The position of the leftmost season word at or after i. */
  function FirstSeasonWord(t: string, i: nat): (r: Option<nat>)
    requires i <= |t|
    ensures r.Some? ==> i <= r.value < |t| && SeasonWordAt(t, r.value)
    ensures r.Some? ==> forall q :: i <= q < r.value ==> !SeasonWordAt(t, q)
    ensures r.None? ==> forall q :: i <= q < |t| ==> !SeasonWordAt(t, q)
    decreases |t| - i
  {
    if i == |t| then None
    else if SeasonWordAt(t, i) then Some(i)
    else FirstSeasonWord(t, i + 1)
  }

  /** `inferSeasonFromFilename`: the leftmost "sN" token, else the leftmost "season N", else season 1. */
  function InferSeasonFromFilename(filename: string): (r: nat)
    ensures r < 100
    ensures var t := Lower(filename);
      match FirstSeasonToken(t, 0)
      case Some(p) => r == SeasonTokenValue(t, p)
      case None =>
        match FirstSeasonWord(t, 0)
        case Some(i) => r == SeasonWordValue(t, i)
        case None => r == 1
  {
    var t := Lower(filename);
    match FirstSeasonToken(t, 0)
    case Some(p) => SeasonTokenValue(t, p)
    case None =>
      match FirstSeasonWord(t, 0)
      case Some(i) => SeasonWordValue(t, i)
      case None => 1
  }

  /** One or two digits are worth less than 100. */
  lemma TwoDigitsBelowHundred(t: string, i: nat, j: nat)
    requires i <= j <= |t| && j - i <= 2
    requires forall k :: i <= k < j ==> IsDigit(t[k])
    ensures ValueAt(t, i, j) < 100
  {
    var s := t[i..j];
    assert ValueAt(t, i, j) == DigitsValue(s);
    if |s| == 1 {
      assert s[..0] == [];
    } else if |s| == 2 {
      var s1 := s[..1];
      assert s1[..0] == [];
      assert DigitsValue(s1) < 10;
    }
  }

  /** A literal found at q starts with the character at q. */
  lemma LiteralHead(t: string, q: nat, lit: string)
    requires |lit| > 0
    ensures LiteralAt(t, q, lit) ==> q < |t| && t[q] == lit[0]
  {
    if LiteralAt(t, q, lit) {
      assert t[q..q + |lit|][0] == t[q];
    }
  }

  /** A name with no 's' at all says nothing about its season. */
  lemma NoSeasonMarkerIsFirstSeason(filename: string)
    requires forall k :: 0 <= k < |filename| ==> filename[k] != 's' && filename[k] != 'S'
    ensures InferSeasonFromFilename(filename) == 1
  {
    var t := Lower(filename);
    forall q | 0 <= q < |t|
      ensures !SeasonTokenAt(t, q) && !SeasonWordAt(t, q)
    {
      assert t[q] == LowerChar(filename[q]);
      LiteralHead(t, q, "season");
    }
  }

  /** `Show S02E05` is in season 2: the token's digits end at a letter. */
  lemma SeasonTokenExample()
    ensures InferSeasonFromFilename("Show S02E05") == 2
  {
    var t := Lower("Show S02E05");
    assert t == "show s02e05";
    ExampleTokenFound(t);
    ExampleTokenValue(t);
  }

  lemma ExampleTokenFound(t: string)
    requires t == "show s02e05"
    ensures FirstSeasonToken(t, 0) == Some(5)
  {
    assert !SeasonTokenAt(t, 0) && !SeasonTokenAt(t, 1) && !SeasonTokenAt(t, 2) && !SeasonTokenAt(t, 3) && !SeasonTokenAt(t, 4);
    assert DigitRun(t, 8) == 0;
    assert DigitRun(t, 6) == 2;
    assert SeasonTokenAt(t, 5);
  }

  lemma ExampleTokenValue(t: string)
    requires t == "show s02e05" && SeasonTokenAt(t, 5)
    ensures SeasonTokenValue(t, 5) == 2
  {
    assert DigitRun(t, 8) == 0;
    assert DigitRun(t, 6) == 2;
    assert t[6..8] == "02";
    assert DigitsValue("02") == 2 by {
      assert "02"[..1] == "0";
      assert "0"[..0] == [];
    }
  }

  // ----- findMatchingAnime -----

  /** The lower-cased library title contains the parsed title, or the other way round. */
  predicate TitlesOverlap(parsedTitle: string, anime: Anime) {
    Contains(Lower(anime.title), Lower(parsedTitle)) || Contains(Lower(parsedTitle), Lower(anime.title))
  }

  function FirstOverlapping(parsedTitle: string, library: seq<Anime>, i: nat): (r: Option<nat>)
    requires i <= |library|
    ensures r.Some? ==> i <= r.value < |library| && TitlesOverlap(parsedTitle, library[r.value])
    ensures r.Some? ==> forall j :: i <= j < r.value ==> !TitlesOverlap(parsedTitle, library[j])
    ensures r.None? ==> forall j :: i <= j < |library| ==> !TitlesOverlap(parsedTitle, library[j])
    decreases |library| - i
  {
    if i == |library| then None
    else if TitlesOverlap(parsedTitle, library[i]) then Some(i)
    else FirstOverlapping(parsedTitle, library, i + 1)
  }

  /** `findMatchingAnime`: the first library entry whose title overlaps the parsed one; no season check. */
  function FindMatchingAnime(parsedTitle: Option<string>, library: seq<Anime>): (r: Option<Anime>)
    ensures parsedTitle.None? || parsedTitle.value == "" ==> r.None?
    ensures r.Some? ==> exists i :: (0 <= i < |library| && library[i] == r.value &&
      TitlesOverlap(parsedTitle.value, r.value) && forall j :: 0 <= j < i ==> !TitlesOverlap(parsedTitle.value, library[j]))
    ensures r.None? && parsedTitle.Some? && parsedTitle.value != "" ==>
      forall j :: 0 <= j < |library| ==> !TitlesOverlap(parsedTitle.value, library[j])
  {
    if parsedTitle.None? || parsedTitle.value == "" then None
    else
      match FirstOverlapping(parsedTitle.value, library, 0)
      case None => None
      case Some(i) => Some(library[i])
  }

  // ----- paths -----

  /** `path.basename`: what follows the last '/'. */
  function BaseName(path: string): (r: string)
    ensures EndsWith(path, r)
    ensures forall k :: 0 <= k < |r| ==> r[k] != '/'
  {
    match FilenameParser.LastIndexOf(path, '/')
    case None => path
    case Some(i) => path[i + 1..]
  }

  /**
   * `path.extname` of a base name: from the last '.' to the end, empty when
   * there is no '.', when the only one leads the name, or for "..".
   */
  function ExtName(base: string): (r: string)
    ensures EndsWith(base, r)
    ensures r == [] || (r[0] == '.' && forall k :: 0 < k < |r| ==> r[k] != '.')
  {
    match FilenameParser.LastIndexOf(base, '.')
    case None => ""
    case Some(i) => if i == 0 || base == ".." then "" else base[i..]
  }

  /** `base.slice(0, -ext.length)`: with an empty extension the slice end is 0, so the name is empty. */
  function NameWithoutExt(base: string, ext: string): (r: string)
    requires EndsWith(base, ext)
    ensures ext != [] ==> base == r + ext
    ensures ext == [] ==> r == []
  {
    if ext == [] then [] else base[..|base| - |ext|]
  }

  /** The target of a matched file: root/Title/Season S/Title - Episode NNN.ext. */
  function TargetPath(targetRoot: string, safeTitle: string, season: nat, episode: nat, ext: string): (r: string)
    ensures StartsWith(r, targetRoot + "/" + safeTitle + "/Season " + NatToString(season) + "/")
    ensures EndsWith(r, ext)
  {
    var dir := targetRoot + "/" + safeTitle + "/Season " + NatToString(season) + "/";
    var file := safeTitle + " - Episode " + PadZeros(NatToString(episode), 3) + ext;
    assert (dir + file)[..|dir|] == dir;
    assert (dir + file)[|dir + file| - |ext|..] == ext;
    dir + file
  }

  // ----- the plan -----

  datatype OrganizeStatus = Ready | Unmatched | Conflict

  /** One planned rename. */
  datatype PlanItem = PlanItem(
    from: string, to: string,
    title: Option<string>, episode: Option<nat>,
    matchedAnimeId: Option<string>, matchedAnimeTitle: Option<string>,
    season: Option<nat>, status: OrganizeStatus)

  /**
   * The item the first loop pushes for one file: unmatched and staying in
   * place without a library match or an episode; otherwise the target path,
   * ready unless it equals the source ignoring case.
   */
  function DraftItem(targetRoot: string, library: seq<Anime>, from: string): (r: PlanItem)
    ensures r.from == from && r.status != Conflict
    ensures r.season.None? ==> r.to == from && r.status == Unmatched
    ensures r.matchedAnimeId.Some? <==> r.matchedAnimeTitle.Some?
    ensures r.season.Some? ==> r.matchedAnimeId.Some? && r.episode.Some? && r.episode.value > 0
    ensures r.season.Some? ==> (r.status == Ready <==> Lower(r.from) != Lower(r.to))
    ensures r.status == Ready ==> r.season.Some? && r.from != r.to
  {
    var base := BaseName(from);
    var ext := ExtName(base);
    var name := NameWithoutExt(base, ext);
    var parsed := FilenameParser.ParseFilename(name);
    var matched := FindMatchingAnime(parsed.title, library);
    if matched.None? || parsed.episode.None? then
      PlanItem(from, from, parsed.title, parsed.episode,
               if matched.Some? then Some(matched.value.id) else None,
               if matched.Some? then Some(matched.value.title) else None,
               None, Unmatched)
    else
      var season := InferSeasonFromFilename(name);
      var safeTitle := SanitizeName(matched.value.title);
      var to := TargetPath(targetRoot, safeTitle, season, parsed.episode.value, ext);
      PlanItem(from, to, parsed.title, parsed.episode, Some(matched.value.id), Some(matched.value.title),
               Some(season), if Lower(from) == Lower(to) then Unmatched else Ready)
  }

  /** The matched case spelled out: the item for a file with an episode and a library match goes to the title's season folder. */
  lemma MatchedItemTarget(targetRoot: string, library: seq<Anime>, from: string)
    requires var base := BaseName(from);
      var name := NameWithoutExt(base, ExtName(base));
      var parsed := FilenameParser.ParseFilename(name);
      parsed.episode.Some? && FindMatchingAnime(parsed.title, library).Some?
    ensures var base := BaseName(from);
      var ext := ExtName(base);
      var name := NameWithoutExt(base, ext);
      var parsed := FilenameParser.ParseFilename(name);
      var anime := FindMatchingAnime(parsed.title, library).value;
      var r := DraftItem(targetRoot, library, from);
      && r.season == Some(InferSeasonFromFilename(name))
      && r.matchedAnimeId == Some(anime.id)
      && StartsWith(r.to, targetRoot + "/" + SanitizeName(anime.title) + "/Season " + NatToString(r.season.value) + "/")
      && EndsWith(r.to, ext)
  {
  }

  /** Whether the counting pass counts item under key: every item with a non-empty target, under its lower-cased target. */
  predicate CountedUnder(item: PlanItem, key: string) {
    item.to != "" && Lower(item.to) == key
  }

  /** `byTarget.get(key)` after the counting pass over items (0 for a key never set). */
  function TargetCount(items: seq<PlanItem>, key: string): (n: nat)
    ensures n <= |items|
  {
    if items == [] then 0
    else TargetCount(items[..|items| - 1], key) + (if CountedUnder(items[|items| - 1], key) then 1 else 0)
  }

  lemma {:induction false} CountedOnce(items: seq<PlanItem>, key: string, i: nat)
    requires i < |items| && CountedUnder(items[i], key)
    ensures TargetCount(items, key) >= 1
  {
    if i < |items| - 1 {
      assert items[..|items| - 1][i] == items[i];
      CountedOnce(items[..|items| - 1], key, i);
    }
  }

  /** Two items counted under the same key make that key's count at least 2. */
  lemma {:induction false} CountedTwice(items: seq<PlanItem>, key: string, i: nat, j: nat)
    requires i < j < |items| && CountedUnder(items[i], key) && CountedUnder(items[j], key)
    ensures TargetCount(items, key) >= 2
  {
    var front := items[..|items| - 1];
    assert front[i] == items[i];
    if j < |items| - 1 {
      assert front[j] == items[j];
      CountedTwice(front, key, i, j);
    } else {
      CountedOnce(front, key, i);
    }
  }

  /** The second loop: every ready item whose target is counted more than once becomes a conflict. */
  function WithConflicts(items: seq<PlanItem>): (r: seq<PlanItem>)
    ensures |r| == |items|
    ensures forall k :: 0 <= k < |items| ==>
      r[k] == items[k] || (items[k].status == Ready && r[k] == items[k].(status := Conflict))
  {
    seq(|items|, k requires 0 <= k < |items| =>
      if items[k].status == Ready && TargetCount(items, Lower(items[k].to)) > 1
      then items[k].(status := Conflict) else items[k])
  }

  /** After the conflict pass no two ready items share a target, ignoring case. */
  lemma ReadyTargetsDistinct(items: seq<PlanItem>)
    requires forall k :: 0 <= k < |items| && items[k].status == Ready ==> items[k].to != ""
    ensures var r := WithConflicts(items);
      forall i, j :: 0 <= i < j < |r| && r[i].status == Ready && r[j].status == Ready ==> Lower(r[i].to) != Lower(r[j].to)
  {
    var r := WithConflicts(items);
    forall i, j | 0 <= i < j < |r| && r[i].status == Ready && r[j].status == Ready
      ensures Lower(r[i].to) != Lower(r[j].to)
    {
      if Lower(r[i].to) == Lower(r[j].to) {
        CountedTwice(items, Lower(items[i].to), i, j);
      }
    }
  }

  /** The items of the first loop, one per file, in file order. */
  function Drafts(targetRoot: string, library: seq<Anime>, files: seq<string>): (r: seq<PlanItem>)
    ensures |r| == |files|
  {
    seq(|files|, k requires 0 <= k < |files| => DraftItem(targetRoot, library, files[k]))
  }

  /** The plan `buildOrganizePlan` returns for the collected files. */
  function OrganizePlan(targetRoot: string, library: seq<Anime>, files: seq<string>): (r: seq<PlanItem>)
    ensures |r| == |files|
    ensures forall k :: 0 <= k < |r| ==> r[k].from == files[k]
  {
    WithConflicts(Drafts(targetRoot, library, files))
  }

  /** The plan's guarantees: one item per file, items without a target stay put, and ready targets never clash. */
  lemma PlanProperties(targetRoot: string, library: seq<Anime>, files: seq<string>)
    ensures var plan := OrganizePlan(targetRoot, library, files);
      && (forall k :: 0 <= k < |plan| && plan[k].season.None? ==> plan[k].to == files[k] && plan[k].status == Unmatched)
      && (forall k :: 0 <= k < |plan| && plan[k].status == Ready ==> plan[k].from != plan[k].to)
      && (forall i, j :: 0 <= i < j < |plan| && plan[i].status == Ready && plan[j].status == Ready ==>
            Lower(plan[i].to) != Lower(plan[j].to))
  {
    var drafts := Drafts(targetRoot, library, files);
    forall k | 0 <= k < |drafts| && drafts[k].status == Ready
      ensures drafts[k].to != ""
    {
      assert Lower(drafts[k].from) != Lower(drafts[k].to);
    }
    ReadyTargetsDistinct(drafts);
  }

  /** The count map of the counting loop, read with a default of 0. */
  function CountIn(counts: map<string, nat>, key: string): nat {
    if key in counts then counts[key] else 0
  }

  /**
   * drafts holds the draft item of every file. The quantifier fires only
   * where a file's draft is actually computed, which keeps the parser's
   * definition out of the proof of the loop.
   */
  predicate DescribesDrafts(targetRoot: string, library: seq<Anime>, files: seq<string>, drafts: seq<PlanItem>) {
    |drafts| == |files| &&
    forall k {:trigger DraftItem(targetRoot, library, files[k])} :: 0 <= k < |files| ==> drafts[k] == DraftItem(targetRoot, library, files[k])
  }

  lemma DraftsDescribe(targetRoot: string, library: seq<Anime>, files: seq<string>)
    ensures DescribesDrafts(targetRoot, library, files, Drafts(targetRoot, library, files))
  {
  }

  /** The body of the first loop for the i-th file. */
  method PlanFile(targetRoot: string, library: seq<Anime>, files: seq<string>, i: nat, ghost drafts: seq<PlanItem>) returns (item: PlanItem)
    requires i < |files| && DescribesDrafts(targetRoot, library, files, drafts)
    ensures item == drafts[i]
  {
    item := DraftItem(targetRoot, library, files[i]);
  }

  /** The first loop of `buildOrganizePlan`: one item pushed per file. */
  method DraftPlan(files: seq<string>, targetRoot: string, library: seq<Anime>, ghost drafts: seq<PlanItem>) returns (plan: seq<PlanItem>)
    requires DescribesDrafts(targetRoot, library, files, drafts)
    ensures plan == drafts
  {
    plan := [];
    var i := 0;
    while i < |files|
      invariant 0 <= i <= |files|
      invariant plan == drafts[..i]
    {
      var item := PlanFile(targetRoot, library, files, i, drafts);
      plan := plan + [item];
      i := i + 1;
    }
    assert plan == drafts[..|drafts|] == drafts;
  }

  /** The counting loop: `byTarget` maps each lower-cased non-empty target to its number of items. */
  method CountTargets(plan: seq<PlanItem>) returns (byTarget: map<string, nat>)
    ensures forall key :: CountIn(byTarget, key) == TargetCount(plan, key)
  {
    byTarget := map[];
    var i := 0;
    while i < |plan|
      invariant 0 <= i <= |plan|
      invariant forall key :: CountIn(byTarget, key) == TargetCount(plan[..i], key)
    {
      assert plan[..i + 1][..i] == plan[..i];
      if plan[i].to != "" {
        var key := Lower(plan[i].to);
        byTarget := byTarget[key := CountIn(byTarget, key) + 1];
      }
      i := i + 1;
    }
    assert plan[..|plan|] == plan;
  }

  /** The marking loop: a ready item whose target is counted more than once becomes a conflict, in place. */
  method MarkConflicts(items: seq<PlanItem>, byTarget: map<string, nat>) returns (plan: seq<PlanItem>)
    requires forall key :: CountIn(byTarget, key) == TargetCount(items, key)
    ensures plan == WithConflicts(items)
  {
    plan := items;
    var i := 0;
    while i < |plan|
      invariant 0 <= i <= |plan| && |plan| == |items|
      invariant forall k :: 0 <= k < i ==> plan[k] == WithConflicts(items)[k]
      invariant forall k :: i <= k < |plan| ==> plan[k] == items[k]
    {
      var key := Lower(plan[i].to);
      if CountIn(byTarget, key) > 1 && plan[i].status == Ready {
        plan := plan[i := plan[i].(status := Conflict)];
      }
      i := i + 1;
    }
  }

  /** `buildOrganizePlan` over the collected files: the three loops in turn. */
  method BuildOrganizePlan(files: seq<string>, targetRoot: string, library: seq<Anime>) returns (plan: seq<PlanItem>)
    ensures plan == OrganizePlan(targetRoot, library, files)
  {
    DraftsDescribe(targetRoot, library, files);
    var drafts := DraftPlan(files, targetRoot, library, Drafts(targetRoot, library, files));
    var byTarget := CountTargets(drafts);
    plan := MarkConflicts(drafts, byTarget);
  }

  // ----- applyOrganizePlan -----

  /** The operations `applyOrganizePlan` carries out: the ready items that move, in plan order. */
  function Operations(plan: seq<PlanItem>): (ops: seq<PlanItem>)
    ensures |ops| <= |plan|
    ensures forall op :: op in ops <==> op in plan && op.status == Ready && op.from != op.to
  {
    if plan == [] then []
    else if plan[0].status == Ready && plan[0].from != plan[0].to then [plan[0]] + Operations(plan[1..])
    else Operations(plan[1..])
  }

  /** In a built plan every ready item moves, so the operations are exactly its ready items. */
  lemma OperationsAreReadyItems(targetRoot: string, library: seq<Anime>, files: seq<string>)
    ensures var plan := OrganizePlan(targetRoot, library, files);
      forall op :: op in Operations(plan) <==> op in plan && op.status == Ready
  {
    PlanProperties(targetRoot, library, files);
  }
}
