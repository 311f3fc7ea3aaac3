/** `robot_tags_resolver.py`: collects the tags that the test suites' exclusion
    modules return, then prints one line holding the Robot Framework exclusion
    option and a human-readable description of why each tag is excluded.
    Finding and loading those modules is left to the caller: their results
    arrive as a sequence, one per module found. */
module RobotTagsResolver {
  import opened Wrappers
  import opened Strings

  /** A Python dict of tag to reason: pairs in insertion order. */
  type Dict = seq<(string, string)>

  /** A real dict has each key once. */
  predicate IsDict(d: Dict)
  {
    forall i, j :: 0 <= i < j < |d| ==> d[i].0 != d[j].0
  }

  function Keys(d: Dict): (keys: seq<string>)
    ensures |keys| == |d|
  {
    seq(|d|, i requires 0 <= i < |d| => d[i].0)
  }

  /** The position of the first `x` in `xs`. */
  function IndexOf(xs: seq<string>, x: string): (r: Option<nat>)
    ensures r.None? <==> x !in xs
    ensures r.Some? ==> r.value < |xs| && xs[r.value] == x && x !in xs[..r.value]
  {
    if xs == [] then None
    else if xs[0] == x then Some(0)
    else
      match IndexOf(xs[1..], x)
      case None => None
      case Some(i) =>
        assert xs[..i + 1] == [xs[0]] + xs[1..][..i];
        Some(i + 1)
  }

  /** Adding an element at the end does not move the first `x` of any other element. */
  lemma {:induction false} IndexOfAppend(xs: seq<string>, y: string, x: string)
    requires x != y || x in xs
    ensures IndexOf(xs + [y], x) == IndexOf(xs, x)
    decreases |xs|
  {
    if xs != [] && xs[0] != x {
      assert (xs + [y])[1..] == xs[1..] + [y];
      IndexOfAppend(xs[1..], y, x);
    }
  }

  /** `d.get(k)`. */
  function Get(d: Dict, k: string): (r: Option<string>)
    ensures r.None? <==> k !in Keys(d)
  {
    match IndexOf(Keys(d), k)
    case None => None
    case Some(i) => Some(d[i].1)
  }

  /** `d[k] = v`: an existing key keeps its place and takes the new value; a new key goes last. */
  function Put(d: Dict, k: string, v: string): (r: Dict)
    ensures k in Keys(d) ==> |r| == |d| && Keys(r) == Keys(d)
    ensures k !in Keys(d) ==> r == d + [(k, v)] && Keys(r) == Keys(d) + [k]
  {
    match IndexOf(Keys(d), k)
    case Some(i) =>
      assert Keys(d[i := (k, v)]) == Keys(d);
      d[i := (k, v)]
    case None =>
      assert Keys(d + [(k, v)]) == Keys(d) + [k];
      d + [(k, v)]
  }

  /** `d[k] = v` keeps a dict a dict. */
  lemma PutKeepsDict(d: Dict, k: string, v: string)
    requires IsDict(d)
    ensures IsDict(Put(d, k, v))
  {
    var r := Put(d, k, v);
    forall i, j | 0 <= i < j < |r|
      ensures r[i].0 != r[j].0
    {
      assert Keys(r)[i] == r[i].0 && Keys(r)[j] == r[j].0;
      if j == |d| {
        assert Keys(d)[i] == d[i].0;
      } else {
        assert Keys(d)[i] == d[i].0 && Keys(d)[j] == d[j].0;
      }
    }
  }

  /** Looking up after `d[k] = v`: `k` gives `v`, every other key what it gave before. */
  lemma GetPut(d: Dict, k: string, v: string, key: string)
    ensures Get(Put(d, k, v), key) == if key == k then Some(v) else Get(d, key)
  {
    var r := Put(d, k, v);
    if k in Keys(d) {
      assert IndexOf(Keys(r), key) == IndexOf(Keys(d), key);
    } else if key != k {
      IndexOfAppend(Keys(d), k, key);
    } else {
      assert IndexOf(Keys(d) + [k], k) == Some(|d|) by {
        assert (Keys(d) + [k])[|d|] == k;
        assert (Keys(d) + [k])[..|d|] == Keys(d);
      }
    }
  }

  /** `d.update(n)`: each pair of `n`, in order, put into `d`. */
  function Update(d: Dict, n: Dict): Dict
    decreases |n|
  {
    if n == [] then d else Update(Put(d, n[0].0, n[0].1), n[1..])
  }

  /** Looking a key up in a dict by its first pair and the rest. */
  lemma GetFirstPair(n: Dict, key: string)
    requires n != []
    ensures Get(n, key) == if key == n[0].0 then Some(n[0].1) else Get(n[1..], key)
  {
    assert Keys(n) == [n[0].0] + Keys(n[1..]);
    if key != n[0].0 {
      match IndexOf(Keys(n[1..]), key)
      case None =>
      case Some(m) =>
        assert IndexOf(Keys(n), key) == Some(m + 1);
        assert n[m + 1] == n[1..][m];
    }
  }

  /** In a dict, the first pair's key is not found again in the rest. */
  lemma FirstKeyNotRepeated(n: Dict)
    requires IsDict(n) && n != []
    ensures IsDict(n[1..]) && Get(n[1..], n[0].0).None?
  {
    forall m | 0 <= m < |n[1..]|
      ensures Keys(n[1..])[m] != n[0].0
    {
      assert n[m + 1].0 != n[0].0;
    }
  }

  /** After `d.update(n)` a key of `n` gives its value in `n`, any other key its value in `d`. */
  lemma {:induction false} GetUpdate(d: Dict, n: Dict, key: string)
    requires IsDict(n)
    ensures Get(Update(d, n), key) == if Get(n, key).Some? then Get(n, key) else Get(d, key)
    decreases |n|
  {
    if n != [] {
      FirstKeyNotRepeated(n);
      GetUpdate(Put(d, n[0].0, n[0].1), n[1..], key);
      GetPut(d, n[0].0, n[0].1, key);
      GetFirstPair(n, key);
    }
  }

  /** The keys after `d.update(n)` are those of `d` and of `n`. */
  lemma {:induction false} UpdateKeys(d: Dict, n: Dict, key: string)
    ensures key in Keys(Update(d, n)) <==> key in Keys(d) || key in Keys(n)
    decreases |n|
  {
    if n != [] {
      UpdateKeys(Put(d, n[0].0, n[0].1), n[1..], key);
      assert Keys(n) == [n[0].0] + Keys(n[1..]);
      assert key in Keys(Put(d, n[0].0, n[0].1)) <==> key in Keys(d) || key == n[0].0;
    }
  }

  /** `create_exclude_tags_robot_command`: no option for no tags, otherwise
      `-e ` and the tags joined by `OR`. */
  function CreateExcludeTagsRobotCommand(tags: seq<string>): (command: string)
    ensures tags == [] <==> command == ""
    ensures tags != [] ==> |command| >= 3 && command[..3] == "-e " && command[3..] == Join(tags, "OR")
    ensures |tags| == 1 ==> command == "-e " + tags[0]
  {
    if tags == [] then "" else "-e " + Join(tags, "OR")
  }

  /** The tags can be read back out of the option, as long as none of them holds `OR`. */
  lemma CommandRoundTrip(tags: seq<string>)
    requires tags != []
    requires forall t :: t in tags ==> !Contains(t, "OR")
    ensures Split(CreateExcludeTagsRobotCommand(tags)[3..], "OR") == tags
  {
    assert BorderFree("OR") by {
      assert "OR"[1..][0] == 'R' && "OR"[..1][0] == 'O';
    }
    SplitJoin(tags, "OR");
  }

  const Title := "The following tags will be excluded with provided reason\n"

  /** `f'{tag}: {reason}'`. */
  function DescriptionLine(entry: (string, string)): string
  {
    entry.0 + ": " + entry.1
  }

  function DescriptionLines(tags: Dict): (lines: seq<string>)
    ensures |lines| == |tags|
  {
    seq(|tags|, i requires 0 <= i < |tags| => DescriptionLine(tags[i]))
  }

  /** What `create_exclude_tags_description` returns: nothing for no tags,
      otherwise the title line and one `tag: reason` line per entry, in order,
      with no newline at the end. */
  function Description(tags: Dict): string
  {
    if tags == [] then "" else Title + Join(DescriptionLines(tags), "\n")
  }

  /** `create_exclude_tags_description`: the lines are built by an `append` loop, then joined. */
  method CreateExcludeTagsDescription(tags: Dict) returns (description: string)
    ensures description == Description(tags)
    ensures tags == [] <==> description == ""
    ensures tags != [] ==> description[..|Title|] == Title
  {
    if tags == [] {
      return "";
    }
    var lines: seq<string> := [];
    var i := 0;
    while i < |tags|
      invariant 0 <= i <= |tags|
      invariant lines == DescriptionLines(tags[..i])
    {
      lines := lines + [DescriptionLine(tags[i])];
      i := i + 1;
    }
    assert tags[..i] == tags;
    description := Title + Join(lines, "\n");
  }

  /** Below the title, the description splits at its newlines into exactly one
      line per entry, as long as no tag or reason holds a newline. */
  lemma DescriptionRoundTrip(tags: Dict)
    requires tags != []
    requires forall i :: 0 <= i < |tags| ==> '\n' !in tags[i].0 && '\n' !in tags[i].1
    ensures Description(tags)[..|Title|] == Title
    ensures Split(Description(tags)[|Title|..], "\n") == DescriptionLines(tags)
    ensures forall i :: 0 <= i < |tags| ==> DescriptionLines(tags)[i] == tags[i].0 + ": " + tags[i].1
  {
    var lines := DescriptionLines(tags);
    forall x | x in lines
      ensures !Contains(x, "\n")
    {
      var i :| 0 <= i < |lines| && lines[i] == x;
      assert '\n' !in ": ";
      NoCharNotContained(x, '\n');
    }
    assert Description(tags)[|Title|..] == Join(lines, "\n");
    SplitJoin(lines, "\n");
  }

  /** What one exclusion module's `get_excluded_tags` returned: a dict of tag
      to reason, a list of tags, or anything else (ignored). */
  datatype ExcludedTags = TagDict(entries: Dict) | TagList(tags: seq<string>) | Ignored

  /** The `tags` list after all modules: each dict's keys, each list's tags, in order. */
  function CollectedTags(results: seq<ExcludedTags>): seq<string>
  {
    if results == [] then []
    else
      var earlier := CollectedTags(results[..|results| - 1]);
      match results[|results| - 1]
      case TagDict(entries) => earlier + Keys(entries)
      case TagList(tags) => earlier + tags
      case Ignored => earlier
  }

  /** The `tags_with_description` dict after all modules: every dict merged in, later ones winning. */
  function CollectedDescriptions(results: seq<ExcludedTags>): Dict
  {
    if results == [] then []
    else
      var earlier := CollectedDescriptions(results[..|results| - 1]);
      match results[|results| - 1]
      case TagDict(entries) => Update(earlier, entries)
      case _ => earlier
  }

  /** Every tag that has a description is among the excluded tags. */
  lemma {:induction false} DescribedTagsAreExcluded(results: seq<ExcludedTags>, key: string)
    requires key in Keys(CollectedDescriptions(results))
    ensures key in CollectedTags(results)
    decreases |results|
  {
    var earlier := results[..|results| - 1];
    match results[|results| - 1]
    case TagDict(entries) =>
      UpdateKeys(CollectedDescriptions(earlier), entries, key);
      if key in Keys(CollectedDescriptions(earlier)) {
        DescribedTagsAreExcluded(earlier, key);
      }
    case TagList(_) =>
      DescribedTagsAreExcluded(earlier, key);
    case Ignored =>
      DescribedTagsAreExcluded(earlier, key);
  }

  /** The description of a tag is the one the last module that described it gave. */
  lemma {:induction false} LastDescriptionWins(results: seq<ExcludedTags>, i: nat, key: string)
    requires i < |results| && results[i].TagDict? && IsDict(results[i].entries) && Get(results[i].entries, key).Some?
    requires forall j :: i < j < |results| && results[j].TagDict? ==> Get(results[j].entries, key).None?
    requires forall j :: 0 <= j < |results| && results[j].TagDict? ==> IsDict(results[j].entries)
    ensures Get(CollectedDescriptions(results), key) == Get(results[i].entries, key)
    decreases |results|
  {
    var earlier := results[..|results| - 1];
    if i == |results| - 1 {
      GetUpdate(CollectedDescriptions(earlier), results[i].entries, key);
    } else {
      LastDescriptionWins(earlier, i, key);
      if results[|results| - 1].TagDict? {
        GetUpdate(CollectedDescriptions(earlier), results[|results| - 1].entries, key);
      }
    }
  }

  /** `resolve_robot_tags` past the module search: merge the results, drop
      duplicate tags with `set(tags)`, and build the printed
      `<command>;<description>;` line. The set's iteration order is Python's
      own choice: `order` is the one taken. */
  method ResolveRobotTags(results: seq<ExcludedTags>) returns (line: string, tagSet: set<string>, order: seq<string>)
    ensures tagSet == set t | t in CollectedTags(results)
    ensures |order| == |tagSet| && forall t :: t in order <==> t in tagSet
    ensures forall i, j :: 0 <= i < j < |order| ==> order[i] != order[j]
    ensures line == CreateExcludeTagsRobotCommand(order) + ";" + Description(CollectedDescriptions(results)) + ";"
  {
    var tags: seq<string> := [];
    var tagsWithDescription: Dict := [];
    var i := 0;
    while i < |results|
      invariant 0 <= i <= |results|
      invariant tags == CollectedTags(results[..i])
      invariant tagsWithDescription == CollectedDescriptions(results[..i])
    {
      assert results[..i + 1][..i] == results[..i];
      var result := results[i];
      i := i + 1;
      match result
      case TagDict(entries) =>
        tags := tags + Keys(entries);
        tagsWithDescription := Update(tagsWithDescription, entries);
      case TagList(more) =>
        tags := tags + more;
      case Ignored =>
    }
    assert results[..i] == results;
    tagSet := set t | t in tags;
    order := [];
    var rest := tagSet;
    while rest != {}
      invariant rest <= tagSet
      invariant forall t :: t in order <==> t in tagSet && t !in rest
      invariant forall a, b :: 0 <= a < b < |order| ==> order[a] != order[b]
      invariant |order| + |rest| == |tagSet|
      decreases |rest|
    {
      var t :| t in rest;
      order := order + [t];
      rest := rest - {t};
    }
    var command := CreateExcludeTagsRobotCommand(order);
    var description := CreateExcludeTagsDescription(tagsWithDescription);
    line := command + ";" + description + ";";
  }
}
