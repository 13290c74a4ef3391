/** The Android driver's element wrapper, key codes and swipe helpers. The
    device itself is an input: what a lookup returns and whether an element
    is displayed after each swipe. */
module U2 {
  import opened Wrappers
  import opened Text
  import opened Locators

  /** The locator keys the Android driver forwards to the device. */
  const U2_LOCATORS: set<string> := {"resourceId", "name", "xpath", "text", "className"}

  /** The key-code table: its keys are upper case. */
  const KEYCODES: map<string, string> := map["HOME" := "home", "BACK" := "back", "LEFT" := "left", "ENTER" := "enter"]

  /** An element handle as the device returns it. */
  type Handle = string

  class U2Element {
    var kwargs: Kwargs
    var attrs: map<string, string>
    var desc: Option<string>
    var findElemInfo: Option<string>

    /** The attribute loop of `__init__`: each unsupported keyword becomes
        an attribute (a `desc` keyword sets the description) and is deleted
        from the locator. */
    constructor (kw: Kwargs)
      ensures kwargs == Keep(kw, U2_LOCATORS)
      ensures attrs == Attrs(Drop(kw, U2_LOCATORS)) && desc == DescAttr(attrs)
      ensures findElemInfo == None
    {
      kwargs := kw;
      attrs := map[];
      desc := None;
      findElemInfo := None;
      new;
      for i := 0 to |kw|
        invariant kwargs == Keep(kw[..i], U2_LOCATORS) + kw[i..]
        invariant attrs == Attrs(Drop(kw[..i], U2_LOCATORS)) && desc == DescAttr(attrs)
        invariant findElemInfo == None
      {
        DeleteStep(kw, i, U2_LOCATORS, kwargs);
        var k := |Keep(kw[..i], U2_LOCATORS)|;
        var key, value := kw[i].0, kw[i].1;
        if key !in U2_LOCATORS {
          SetAttr(key, value);
          // the entry named `key` is the first one not yet examined
          kwargs := kwargs[..k] + kwargs[k + 1..];
        }
      }
      assert kw[..|kw|] == kw;
    }

    /** `setattr(self, key, value)`: a `desc` keyword is the description. */
    method SetAttr(key: string, value: string)
      modifies this
      ensures attrs == old(attrs)[key := value] && desc == DescAttr(attrs)
      ensures kwargs == old(kwargs) && findElemInfo == old(findElemInfo)
    {
      attrs := attrs[key := value];
      desc := DescAttr(attrs);
    }

    /** `U2Element(**kwargs)`: no keywords, or no supported locator among
        them, is a ValueError. */
    static method Create(kw: Kwargs) returns (r: Result<U2Element>)
      ensures r.Err? <==> SplitLocator(kw, U2_LOCATORS).Err?
      ensures r.Err? ==> r.error == ValueError
      ensures r.Ok? ==> (fresh(r.value) && r.value.kwargs == SplitLocator(kw, U2_LOCATORS).value.kwargs
        && r.value.attrs == SplitLocator(kw, U2_LOCATORS).value.attrs
        && r.value.desc == DescAttr(r.value.attrs) && r.value.findElemInfo == None)
    {
      if kw == [] {
        return Err(ValueError);
      }
      var e := new U2Element(kw);
      if e.kwargs == [] {
        return Err(ValueError);
      }
      r := Ok(e);
    }

    /** `get_elements`: the description is recomputed first (and prefixed
        with `desc=` once it is set), then the device is asked; a failed
        lookup is an empty result when `empty` is set, else a
        NotFindElementError. */
    method GetElements(empty: bool, lookup: Result<seq<Handle>>) returns (r: Result<seq<Handle>>)
      modifies this
      ensures desc == Some(NextDesc(old(desc), kwargs))
      ensures kwargs == old(kwargs) && attrs == old(attrs)
      ensures lookup.Err? ==> r == (if empty then Ok([]) else Err(NotFindElementError))
      ensures lookup.Err? || empty ==> findElemInfo == old(findElemInfo)
      ensures lookup.Ok? ==> r == lookup
      ensures lookup.Ok? && !empty ==> findElemInfo == Some("Find element: " + desc.value + ".")
    {
      desc := Some(NextDesc(desc, kwargs));
      if lookup.Err? {
        if !empty {
          return Err(NotFindElementError);
        }
        return Ok([]);
      }
      if !empty {
        findElemInfo := Some("Find element: " + desc.value + ".");
      }
      r := lookup;
    }
  }

  /** The description `get_elements` stores. */
  function NextDesc(desc: Option<string>, kw: Kwargs): string {
    Describe(desc, kw)
  }

  /** Once a locator has been described, each further lookup prefixes the
      stored description with another `desc=`. */
  lemma RepeatedLookupPrefixes(desc: Option<string>, kw: Kwargs)
    requires kw != []
    ensures NextDesc(Some(NextDesc(desc, kw)), kw) == "desc=" + NextDesc(desc, kw)
  {
    DescribeNonEmpty(desc, kw);
  }

  /** Without a `desc` keyword, the first lookup describes a single locator
      as `k=v` and the second as `desc=k=v`. */
  lemma FirstAndSecondLookup(k: string, v: string)
    ensures NextDesc(None, [(k, v)]) == k + "=" + v
    ensures NextDesc(Some(NextDesc(None, [(k, v)])), [(k, v)]) == "desc=" + k + "=" + v
  {
    DescribeSingle(k, v);
  }

  /** `press(key)`: the code sent is the table entry, None for a key not
      in the table. */
  function Press(key: string): (sent: Option<string>)
    ensures sent.Some? <==> key in {"HOME", "BACK", "LEFT", "ENTER"}
  {
    if key in KEYCODES then Some(KEYCODES[key]) else None
  }

  /** `back()` and `home()` as written: they look up lower-case keys. */
  function BackAsWritten(): Option<string> { Press("back") }
  function HomeAsWritten(): Option<string> { Press("home") }

  /** The two buttons send None to the device. */
  lemma ButtonsSendNothing()
    ensures BackAsWritten() == None && HomeAsWritten() == None
    ensures Press("HOME") == Some("home") && Press("BACK") == Some("back")
  {
  }

  /** `back()` and `home()` corrected: the table's own keys. */
  function Back(): (sent: Option<string>)
    ensures sent == Some("back")
  {
    Press("BACK")
  }

  function Home(): (sent: Option<string>)
    ensures sent == Some("home")
  {
    Press("HOME")
  }

  /** One swipe as sent to the device: start and end points as screen
      fractions. */
  datatype Swipe = Swipe(fromX: real, fromY: real, toX: real, toY: real)

  /** `swipe_up`: `upper` halves the start height; then exactly `times`
      identical swipes (none for a non-positive count). */
  method SwipeUp(times: int, upper: bool, width: real, start: real, end: real) returns (swipes: seq<Swipe>)
    ensures |swipes| == (if times > 0 then times else 0)
    ensures forall k :: 0 <= k < |swipes| ==>
      swipes[k] == Swipe(width, if upper then start / 2.0 else start, width, end)
  {
    var from := start;
    if upper {
      from := start / 2.0;
    }
    swipes := [];
    var n := 0;
    while n < times
      invariant 0 <= n && (times > 0 ==> n <= times) && (times <= 0 ==> n == 0)
      invariant |swipes| == n
      invariant forall k :: 0 <= k < n ==> swipes[k] == Swipe(width, from, width, end)
    {
      swipes := swipes + [Swipe(width, from, width, end)];
      n := n + 1;
    }
  }

  /** `swipe_up_find`: check the element, swipe once if it is not displayed,
      and give up once more than `times` swipes have been made.
      `displayed(k)` is the device's answer after `k` swipes. Returns the
      number of swipes made before the element showed. */
  method SwipeUpFind(times: int, kw: Kwargs, displayed: nat -> bool) returns (r: Result<nat>)
    ensures Keep(kw, U2_LOCATORS) == [] ==> r == Err(ValueError)
    ensures r.Ok? ==> (Keep(kw, U2_LOCATORS) != [] && displayed(r.value)
      && (r.value == 0 || r.value <= times) && forall k :: 0 <= k < r.value ==> !displayed(k))
    ensures Keep(kw, U2_LOCATORS) != [] ==>
      (r == Err(NotFindElementError) <==> forall k :: 0 <= k <= Bound(times) ==> !displayed(k))
    ensures r.Err? ==> r.error in {ValueError, NotFindElementError}
  {
    // the element wrapper built for the log line gets an `index` keyword,
    // so only the locator check can fail
    var elem := U2Element.Create(kw + [("index", "None")]);
    KeepDropSnoc(kw, ("index", "None"), U2_LOCATORS);
    if elem.Err? {
      return Err(ValueError);
    }
    var swipeTimes: nat := 0;
    while !displayed(swipeTimes)
      invariant swipeTimes == 0 || swipeTimes <= times
      invariant forall k :: 0 <= k < swipeTimes ==> !displayed(k)
      decreases if swipeTimes <= times then times - swipeTimes + 1 else 0
    {
      var _ := SwipeUp(1, false, 0.5, 0.9, 0.1);
      swipeTimes := swipeTimes + 1;
      if swipeTimes > times {
        assert swipeTimes - 1 == Bound(times);
        return Err(NotFindElementError);
      }
    }
    r := Ok(swipeTimes);
  }

  /** The last swipe count checked before giving up. */
  function Bound(times: int): nat {
    if times > 0 then times else 0
  }
}
