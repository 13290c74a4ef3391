/** Element locators as both drivers build them: keyword arguments split
    into the supported locator keys, which stay in the locator, and the
    others, which become attributes of the element; and the description
    string the drivers print. Keyword values are modelled as strings. */
module Locators {
  import opened Wrappers
  import opened Text

  /** Keyword arguments in call order. */
  type Kwargs = seq<(string, string)>

  /** Keyword names are distinct, as in any Python call. */
  predicate DistinctKeys(kw: Kwargs) {
    forall i, j :: 0 <= i < j < |kw| ==> kw[i].0 != kw[j].0
  }

  /** The pairs whose key is (or is not) a supported locator, in call order. */
  function Keep(kw: Kwargs, table: set<string>): (r: Kwargs)
    ensures |r| <= |kw|
  {
    if kw == [] then []
    else Keep(kw[..|kw| - 1], table) + (if kw[|kw| - 1].0 in table then [kw[|kw| - 1]] else [])
  }

  function Drop(kw: Kwargs, table: set<string>): (r: Kwargs)
    ensures |r| <= |kw|
  {
    if kw == [] then []
    else Drop(kw[..|kw| - 1], table) + (if kw[|kw| - 1].0 !in table then [kw[|kw| - 1]] else [])
  }

  /** The attributes set from the unsupported keywords. */
  function Attrs(kw: Kwargs): map<string, string> {
    if kw == [] then map[] else Attrs(kw[..|kw| - 1])[kw[|kw| - 1].0 := kw[|kw| - 1].1]
  }

  /** Python truthiness of an attribute that is None or a string. */
  predicate Truthy(v: Option<string>) {
    v.Some? && v.value != ""
  }

  /** The `desc` attribute, if a `desc` keyword was passed. */
  function DescAttr(attrs: map<string, string>): Option<string> {
    if "desc" in attrs then Some(attrs["desc"]) else None
  }

  function Pair(p: (string, string)): string {
    p.0 + "=" + p.1
  }

  function Pairs(kw: Kwargs): seq<string> {
    if kw == [] then [] else Pairs(kw[..|kw| - 1]) + [Pair(kw[|kw| - 1])]
  }

  /** The description the drivers compute: `desc=<d>` for a truthy desc,
      otherwise the locator pairs `k=v` joined by ", ". */
  function Describe(desc: Option<string>, kw: Kwargs): string {
    if Truthy(desc) then "desc=" + desc.value else Join(Pairs(kw), ", ")
  }

  /** A locator splits the keywords into the supported pairs and the
      attributes; no keywords, or no supported one, is a ValueError. */
  datatype Located = Located(kwargs: Kwargs, attrs: map<string, string>)

  function SplitLocator(kw: Kwargs, table: set<string>): (r: Result<Located>)
    ensures r.Err? ==> r.error == ValueError
    ensures r.Err? <==> forall p :: p in kw ==> p.0 !in table
    ensures r.Ok? ==> r.value.kwargs == Keep(kw, table) && r.value.kwargs != []
  {
    KeepMembers(kw, table);
    if kw == [] then Err(ValueError)
    else
      var kept := Keep(kw, table);
      if kept == [] then Err(ValueError)
      else
        assert kept[0] in kw;
        Ok(Located(kept, Attrs(Drop(kw, table))))
  }

  /** The supported side holds exactly the pairs with a supported key. */
  lemma {:induction false} KeepMembers(kw: Kwargs, table: set<string>)
    ensures forall p :: p in Keep(kw, table) <==> p in kw && p.0 in table
  {
    if kw != [] {
      KeepMembers(kw[..|kw| - 1], table);
      assert kw == kw[..|kw| - 1] + [kw[|kw| - 1]];
    }
  }

  /** One more keyword lands at the end of its side. */
  lemma KeepDropSnoc(kw: Kwargs, p: (string, string), table: set<string>)
    ensures Keep(kw + [p], table) == Keep(kw, table) + (if p.0 in table then [p] else [])
    ensures Drop(kw + [p], table) == Drop(kw, table) + (if p.0 !in table then [p] else [])
  {
    assert (kw + [p])[..|kw|] == kw;
  }

  lemma AttrsSnoc(kw: Kwargs, p: (string, string))
    ensures Attrs(kw + [p]) == Attrs(kw)[p.0 := p.1]
  {
    assert (kw + [p])[..|kw|] == kw;
  }

  /** Deleting the entry after a prefix. */
  lemma Splice<T>(a: seq<T>, x: T, b: seq<T>)
    ensures (a + [x] + b)[..|a|] + (a + [x] + b)[|a| + 1..] == a + b
  {
    var s := a + [x] + b;
    assert s[..|a|] == a;
    assert s[|a| + 1..] == b;
  }

  /** One step of the attribute loop: examining entry `i`, with the
      earlier unsupported entries already deleted, keeps it or deletes it
      and sets it as an attribute. */
  lemma DeleteStep(kw: Kwargs, i: nat, table: set<string>, kwargs: Kwargs)
    requires i < |kw| && kwargs == Keep(kw[..i], table) + kw[i..]
    ensures |Keep(kw[..i], table)| < |kwargs|
    ensures kw[i].0 in table ==> kwargs == Keep(kw[..i + 1], table) + kw[i + 1..]
    ensures kw[i].0 !in table ==>
      kwargs[..|Keep(kw[..i], table)|] + kwargs[|Keep(kw[..i], table)| + 1..] == Keep(kw[..i + 1], table) + kw[i + 1..]
    ensures kw[i].0 in table ==> Attrs(Drop(kw[..i + 1], table)) == Attrs(Drop(kw[..i], table))
    ensures kw[i].0 !in table ==> Attrs(Drop(kw[..i + 1], table)) == Attrs(Drop(kw[..i], table))[kw[i].0 := kw[i].1]
  {
    var pre, p, post := kw[..i], kw[i], kw[i + 1..];
    assert kw[..i + 1] == pre + [p];
    assert kw[i..] == [p] + post;
    KeepDropSnoc(pre, p, table);
    var kept := Keep(pre, table);
    if p.0 in table {
      assert Drop(kw[..i + 1], table) == Drop(pre, table);
    } else {
      AttrsSnoc(Drop(pre, table), p);
      assert kwargs == kept + [p] + post;
      Splice(kept, p, post);
    }
  }

  /** Every pair lands on exactly one side, and each side keeps call order:
      the supported pairs are those with a supported key, the others those
      without. */
  lemma {:induction false} KeepDropPartition(kw: Kwargs, table: set<string>)
    ensures |Keep(kw, table)| + |Drop(kw, table)| == |kw|
    ensures forall i :: 0 <= i < |Keep(kw, table)| ==> Keep(kw, table)[i].0 in table
    ensures forall i :: 0 <= i < |Drop(kw, table)| ==> Drop(kw, table)[i].0 !in table
  {
    if kw != [] {
      KeepDropPartition(kw[..|kw| - 1], table);
    }
  }

  /** Keeping a sub-sequence of distinct-keyed pairs keeps the keys distinct. */
  lemma {:induction false} KeepDistinct(kw: Kwargs, table: set<string>)
    requires DistinctKeys(kw)
    ensures DistinctKeys(Keep(kw, table))
  {
    if kw != [] {
      var init := kw[..|kw| - 1];
      assert DistinctKeys(init);
      KeepDistinct(init, table);
      KeepMembers(init, table);
      var last := kw[|kw| - 1];
      forall p | p in Keep(init, table) ensures p.0 != last.0 {
        var i :| 0 <= i < |init| && init[i] == p;
      }
    }
  }

  /** The attribute map holds every unsupported keyword's value. */
  lemma {:induction false} AttrsHold(kw: Kwargs)
    requires DistinctKeys(kw)
    ensures forall i :: 0 <= i < |kw| ==> kw[i].0 in Attrs(kw) && Attrs(kw)[kw[i].0] == kw[i].1
    ensures forall k :: k in Attrs(kw) ==> exists i :: 0 <= i < |kw| && kw[i].0 == k
  {
    if kw != [] {
      var init := kw[..|kw| - 1];
      assert DistinctKeys(init);
      AttrsHold(init);
    }
  }

  /** With at least one pair, the joined description is never empty, so a
      description, once computed, is truthy. */
  lemma DescribeNonEmpty(desc: Option<string>, kw: Kwargs)
    requires kw != []
    ensures Describe(desc, kw) != ""
  {
    if !Truthy(desc) {
      var ps := Pairs(kw);
      assert ps[0] == Pair(kw[0]) by { PairsIndex(kw, 0); }
      JoinStartsWithFirst(ps, ", ");
    }
  }

  lemma {:induction false} PairsIndex(kw: Kwargs, i: nat)
    requires i < |kw|
    ensures |Pairs(kw)| == |kw| && Pairs(kw)[i] == Pair(kw[i])
  {
    PairsLength(kw);
    if i < |kw| - 1 {
      PairsIndex(kw[..|kw| - 1], i);
    }
  }

  lemma {:induction false} PairsLength(kw: Kwargs)
    ensures |Pairs(kw)| == |kw|
  {
    if kw != [] {
      PairsLength(kw[..|kw| - 1]);
    }
  }

  lemma JoinStartsWithFirst(parts: seq<string>, sep: string)
    requires |parts| > 0 && |parts[0]| > 0
    ensures |Join(parts, sep)| > 0
  {
  }

  /** A single locator pair is described as `k=v`. */
  lemma DescribeSingle(k: string, v: string)
    ensures Describe(None, [(k, v)]) == k + "=" + v
  {
    assert Pairs([(k, v)]) == [k + "=" + v] by {
      assert [(k, v)][..0] == [];
    }
  }
}
