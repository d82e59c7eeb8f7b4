/**
 * The editable tag lists of the category and attribute editors: the trimmed
 * input is added once, and a removal drops every copy.
 */
module TagList {
  import opened Text
  import opened Selection

  predicate Distinct(xs: seq<string>) {
    forall a, b :: 0 <= a < b < |xs| ==> xs[a] != xs[b]
  }

  /** `addSubToList` and `addOptionToList`: the trimmed input is appended when it is not empty and not already listed. */
  function AddTag(tags: seq<string>, input: string): (r: seq<string>)
    ensures forall x :: x in r <==> x in tags || (x == Trim(input) && x != "")
    ensures Distinct(tags) ==> Distinct(r)
    ensures |tags| <= |r| <= |tags| + 1 && r[..|tags|] == tags
  {
    var v := Trim(input);
    if v != "" && v !in tags then tags + [v] else tags
  }

  /** The test `s => s !== sub`. */
  function Keeps(sub: string): string -> bool {
    x => x != sub
  }

  /** `filter(s => s !== sub)` (a subcategory tag, an attribute option): every copy goes, the rest keep their order. */
  function RemoveTag(tags: seq<string>, sub: string): (r: seq<string>)
    ensures forall x :: x in r <==> x in tags && x != sub
    ensures |r| <= |tags|
    ensures Distinct(tags) ==> Distinct(r)
  {
    if tags == [] then []
    else
      var rest := RemoveTag(tags[1..], sub);
      assert forall x :: x in tags <==> x == tags[0] || x in tags[1..];
      if tags[0] == sub then rest
      else
        var r := [tags[0]] + rest;
        assert forall j :: 0 < j < |r| ==> r[j] == rest[j - 1];
        assert Distinct(tags) ==> tags[0] !in tags[1..];
        r
  }

  /** The kept tags are every tag other than `sub`, each copy, in their order. */
  lemma {:induction false} RemoveTagInOrder(tags: seq<string>, sub: string)
    ensures IsFilter(RemoveTag(tags, sub), tags, Keeps(sub))
  {
    if tags == [] {
      FilterNil(Keeps(sub));
    } else {
      RemoveTagInOrder(tags[1..], sub);
      FilterCons(RemoveTag(tags[1..], sub), tags, Keeps(sub));
    }
  }

  /** Removing a tag that is not listed changes nothing. */
  lemma {:induction false} RemoveAbsent(tags: seq<string>, sub: string)
    requires sub !in tags
    ensures RemoveTag(tags, sub) == tags
  {
    if tags != [] {
      assert sub !in tags[1..];
      RemoveAbsent(tags[1..], sub);
      assert [tags[0]] + tags[1..] == tags;
    }
  }

  /** Adding a tag and then removing it gives the list back. */
  lemma AddThenRemove(tags: seq<string>, input: string)
    requires Trim(input) !in tags
    ensures RemoveTag(AddTag(tags, input), Trim(input)) == tags
  {
    var v := Trim(input);
    RemoveAbsent(tags, v);
    if v != "" {
      RemoveAppend(tags, v);
    }
  }

  lemma {:induction false} RemoveAppend(tags: seq<string>, v: string)
    requires v !in tags
    ensures RemoveTag(tags + [v], v) == tags
  {
    if tags == [] {
      assert RemoveTag([v], v) == RemoveTag([v][1..], v);
    } else {
      assert (tags + [v])[1..] == tags[1..] + [v];
      RemoveAppend(tags[1..], v);
      assert [tags[0]] + tags[1..] == tags;
    }
  }
}
