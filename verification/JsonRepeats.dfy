/** Objects whose text repeats a key, which the parser stores in the place of the first: the cleaner's result is then
    the one for the true paths exactly when its path is never wrong
    (llama.cpp/common/chat-parser.cpp:294-373, llama.cpp/vendor/nlohmann/json.hpp:19770-19809). */
module JsonRepeats {
  import opened Wrappers
  import opened Text
  import opened JsonCleaner
  import opened JsonPaths
  import opened JsonKept

  // ----- values as they are stored -----

  /** The value stored for a text, whose objects may repeat a key. */
  function Stored(j: Json): Json
    decreases j, 1
  {
    match j
    case Arr(items) => Arr(StoredItems(items))
    case Obj(members) => Obj(StoredMembers(members, []))
    case _ => j
  }

  function StoredItems(items: seq<Json>): seq<Json>
    decreases items, 0
  {
    if items == [] then [] else [Stored(items[0])] + StoredItems(items[1..])
  }

  function StoredMembers(members: seq<Member>, obj: seq<Member>): seq<Member>
    decreases members, 0
  {
    if members == [] then obj
    else StoredMembers(members[1..], Put(obj, members[0].key, Stored(members[0].value)))
  }

  /** The marker is in the last item of an array and in one member, not always the last, of an object. */
  ghost predicate OnePlace(m: string, j: Json)
    decreases j, 1
  {
    match j
    case Arr(items) => ItemsOnePlace(m, items)
    case Obj(members) => MembersOnePlace(m, members)
    case _ => true
  }

  ghost predicate ItemsOnePlace(m: string, items: seq<Json>)
    decreases items, 0
  {
    items == [] || (OnePlace(m, items[0]) && ItemsOnePlace(m, items[1..]) && (|items| > 1 ==> !HasMarker(m, items[0])))
  }

  ghost predicate MembersOnePlace(m: string, members: seq<Member>)
    decreases members, 0
  {
    members == [] ||
    (&& OnePlace(m, members[0].value) && MembersOnePlace(m, members[1..])
     && (Contains(members[0].key, m) || HasMarker(m, members[0].value) ==> !MembersHave(m, members[1..])))
  }

  /** What the parser makes of a text whose marker is in its last part. */
  ghost predicate Parsed(m: string, j: Json) {
    OnePlace(m, j) && DistinctKeys(j)
  }

  lemma {:induction false} HasKeyOfPut(obj: seq<Member>, key: string, value: Json, other: string)
    ensures HasKey(Put(obj, key, value), other) <==> HasKey(obj, other) || key == other
  {
    if obj != [] && obj[0].key != key {
      HasKeyOfPut(obj[1..], key, value, other);
    }
  }

  lemma {:induction false} PutKeepsParsed(m: string, obj: seq<Member>, key: string, value: Json)
    requires MembersOnePlace(m, obj) && MembersDistinct(obj) && !MembersHave(m, obj) && Parsed(m, value)
    ensures var r := Put(obj, key, value);
            && MembersOnePlace(m, r) && MembersDistinct(r)
            && (!Contains(key, m) && !HasMarker(m, value) ==> !MembersHave(m, r))
  {
    if obj != [] && obj[0].key != key {
      PutKeepsParsed(m, obj[1..], key, value);
      HasKeyOfPut(obj[1..], key, value, obj[0].key);
      assert Put(obj, key, value)[1..] == Put(obj[1..], key, value);
    } else if obj == [] {
      assert [Member(key, value)][1..] == [];
    } else {
      assert Put(obj, key, value)[1..] == obj[1..];
    }
  }

  lemma {:induction false} StoredIsParsed(m: string, j: Json)
    requires OnSpine(m, j)
    ensures Parsed(m, Stored(j)) && (!HasMarker(m, j) ==> !HasMarker(m, Stored(j)))
    decreases j, 1
  {
    match j
    case Arr(items) => StoredItemsAreParsed(m, items);
    case Obj(members) => StoredMembersAreParsed(m, members, []);
    case _ =>
  }

  lemma {:induction false} StoredItemsAreParsed(m: string, items: seq<Json>)
    requires ItemsOnSpine(m, items)
    ensures var r := StoredItems(items);
            ItemsOnePlace(m, r) && ItemsDistinct(r) && |r| == |items| && (!ItemsHave(m, items) ==> !ItemsHave(m, r))
    decreases items, 0
  {
    if items != [] {
      StoredIsParsed(m, items[0]);
      StoredItemsAreParsed(m, items[1..]);
      assert StoredItems(items)[1..] == StoredItems(items[1..]);
    }
  }

  lemma {:induction false} StoredMembersAreParsed(m: string, members: seq<Member>, obj: seq<Member>)
    requires MembersOnSpine(m, members) && MembersOnePlace(m, obj) && MembersDistinct(obj) && !MembersHave(m, obj)
    ensures var r := StoredMembers(members, obj);
            MembersOnePlace(m, r) && MembersDistinct(r) && (!MembersHave(m, members) ==> !MembersHave(m, r))
    decreases members, 0
  {
    if members != [] {
      StoredIsParsed(m, members[0].value);
      PutKeepsParsed(m, obj, members[0].key, Stored(members[0].value));
      var more := Put(obj, members[0].key, Stored(members[0].value));
      if |members| > 1 {
        StoredMembersAreParsed(m, members[1..], more);
      } else {
        assert StoredMembers(members[1..], more) == more;
      }
    }
  }

  // ----- a list of paths that tells right from wrong -----

  /** The key of the first member that is no string. */
  ghost function FirstPart(members: seq<Member>): string
    decreases members
  {
    if members == [] then "" else if !members[0].value.Str? then members[0].key else FirstPart(members[1..])
  }

  /** The true path of the first part that is looked up at another. */
  ghost function Misread(m: string, j: Json, path: Path): (r: Path)
    ensures path <= r
    ensures r != path <== !Tidy(m, j) && OnePlace(m, j)
    decreases j, 1
  {
    match j
    case Arr(items) => MisreadInItems(m, items, path)
    case Obj(members) => MisreadInMembers(m, members, path)
    case _ => path
  }

  ghost function MisreadInItems(m: string, items: seq<Json>, path: Path): (r: Path)
    ensures path <= r
    ensures r != path <== !ItemsTidy(m, items) && ItemsOnePlace(m, items)
    decreases items, 0
  {
    if items == [] then path
    else if !Tidy(m, items[0]) then Misread(m, items[0], path)
    else
      UntidyLater(m, items);
      MisreadInItems(m, items[1..], path)
  }

  /** The marker being in the last item, only that can be the untidy one. */
  lemma UntidyLater(m: string, items: seq<Json>)
    requires items != [] && Tidy(m, items[0])
    ensures !ItemsTidy(m, items) && ItemsOnePlace(m, items) ==> !ItemsTidy(m, items[1..])
  {
    if |items| > 1 && !HasMarker(m, items[0]) {
      NoMarkerLeavesNoKey(m, items[0]);
    }
  }

  ghost function MisreadInMembers(m: string, members: seq<Member>, path: Path): (r: Path)
    ensures path <= r
    ensures r != path <== !MembersTidy(m, members)
    decreases members, 0
  {
    if members == [] then path
    else if !Tidy(m, members[0].value) then Misread(m, members[0].value, path + [members[0].key])
    else if LeavesKey(m, members[0].value) && MembersLookUp(m, members[1..]) then path + [FirstPart(members[1..])]
    else MisreadInMembers(m, members[1..], path)
  }

  /** Both cleanings went through, with different results. */
  ghost predicate Differ<T(!new)>(c: Result<Cleaned<T>, CleanError>, p: Result<Plain<T>, CleanError>) {
    c.Ok? && p.Ok? && c.value.value != p.value.value
  }

  /** Only the text of the misread part is asked for. */
  ghost predicate Asks(cfg: Config, path: Path) {
    cfg.argsPaths == [path] && cfg.contentPaths == []
  }

  lemma {:induction false} MembersAtKeeps(cfg: Config, members: seq<Member>, obj: seq<Member>, path: Path, found: bool)
    requires MembersDistinct(members) && Fresh(obj, members) && MembersAt(cfg, members, obj, path, found).Ok?
    ensures obj <= MembersAt(cfg, members, obj, path, found).value.value
    decreases members
  {
    if members != [] && !Contains(members[0].key, cfg.healingMarker) {
      var key, value := members[0].key, members[0].value;
      if value.Str? && !Contains(value.s, cfg.healingMarker) {
        FreshStep(obj, members, value);
        MembersAtKeeps(cfg, members[1..], Put(obj, key, value), path, found);
      } else if value.Str? && !(path + [key] in cfg.contentPaths && cfg.marker == cfg.dumpMarker) {
      } else {
        var c := CleanAt(cfg, value, path + [key], found || value.Str?).value;
        FreshStep(obj, members, c.value);
        if !value.Str? {
          MembersAtKeeps(cfg, members[1..], Put(obj, key, c.value), path, c.found);
        }
      }
    }
  }

  /** What two cleanings have at one place they keep, whatever they make of the other members. */
  lemma DifferenceStays(cfg: Config, members: seq<Member>, obj: seq<Member>, x: Json, y: Json, st: State, path: Path, found: bool)
    requires cfg.contentPaths == [] && members != [] && MembersDistinct(members) && Fresh(obj, members) && x != y
    ensures Differ(CleanMembers(cfg, members[1..], Put(obj, members[0].key, x), st),
                   MembersAt(cfg, members[1..], Put(obj, members[0].key, y), path, found))
  {
    FreshStep(obj, members, x);
    FreshStep(obj, members, y);
    var withX, withY := Put(obj, members[0].key, x), Put(obj, members[0].key, y);
    var rs := MembersShortened(cfg, members[1..], withX, st, None);
    MembersAtKeeps(cfg, members[1..], withY, path, found);
    assert (withX + rs)[|obj|].value == x && MembersAt(cfg, members[1..], withY, path, found).value.value[|obj|].value == y;
  }

  lemma {:induction false} FirstPartIsThere(m: string, members: seq<Member>)
    requires MembersLookUp(m, members) && !MembersHave(m, members)
    ensures HasKey(members, FirstPart(members))
    decreases members
  {
    if members[0].value.Str? {
      FirstPartIsThere(m, members[1..]);
    }
  }

  /** The first part after a key was left behind is not turned into text. */
  lemma {:induction false} PartIsMisread(cfg: Config, members: seq<Member>, obj: seq<Member>, st: State, truth: Path)
    requires MembersLookUp(cfg.healingMarker, members) && !MembersHave(cfg.healingMarker, members)
    requires MembersDistinct(members) && Fresh(obj, members)
    requires |st.path| > |truth| && Asks(cfg, truth + [FirstPart(members)])
    ensures Differ(CleanMembers(cfg, members, obj, st), MembersAt(cfg, members, obj, truth, st.found))
    decreases members
  {
    var key, value := members[0].key, members[0].value;
    if value.Str? {
      FreshStep(obj, members, value);
      PartIsMisread(cfg, members[1..], Put(obj, key, value), st, truth);
    } else {
      var inside := st.(path := st.path + [key]);
      assert |inside.path| > |truth + [FirstPart(members)]|;
      var c := Clean(cfg, value, inside).value;
      var p := CleanAt(cfg, value, truth + [key], st.found).value;
      assert p.value.Str? && !c.value.Str?;
      DifferenceStays(cfg, members, obj, c.value, p.value, c.state.(path := c.state.path[..|c.state.path| - 1]), truth, p.found);
    }
  }

  lemma {:induction false} Misreading(cfg: Config, j: Json, st: State)
    requires !Tidy(cfg.healingMarker, j) && Parsed(cfg.healingMarker, j)
    requires Asks(cfg, Misread(cfg.healingMarker, j, st.path))
    ensures Differ(Clean(cfg, j, st), CleanAt(cfg, j, st.path, st.found))
    decreases j, 1
  {
    match j
    case Arr(items) => ItemsMisread(cfg, items, [], st);
    case Obj(members) => MembersMisread(cfg, members, [], st);
  }

  lemma {:induction false} ItemsMisread(cfg: Config, items: seq<Json>, arr: seq<Json>, st: State)
    requires !ItemsTidy(cfg.healingMarker, items) && ItemsOnePlace(cfg.healingMarker, items) && ItemsDistinct(items)
    requires Asks(cfg, MisreadInItems(cfg.healingMarker, items, st.path))
    ensures Differ(CleanItems(cfg, items, arr, st), ItemsAt(cfg, items, arr, st.path, st.found))
    decreases items, 0
  {
    if Tidy(cfg.healingMarker, items[0]) {
      UntidyLater(cfg.healingMarker, items);
      NoMarkerLeavesNoKey(cfg.healingMarker, items[0]);
      TidyIsRight(cfg, items[0], st);
      var c := Clean(cfg, items[0], st).value;
      ItemsMisread(cfg, items[1..], arr + [c.value], c.state);
    } else {
      if !HasMarker(cfg.healingMarker, items[0]) {
        NoMarkerLeavesNoKey(cfg.healingMarker, items[0]);
        OnSpineIsTidy(cfg.healingMarker, items[0]);
      }
      Misreading(cfg, items[0], st);
      var c, p := Clean(cfg, items[0], st).value.value, CleanAt(cfg, items[0], st.path, st.found).value.value;
      assert items[1..] == [] && (arr + [c])[|arr|] != (arr + [p])[|arr|];
    }
  }

  lemma {:induction false} MembersMisread(cfg: Config, members: seq<Member>, obj: seq<Member>, st: State)
    requires !MembersTidy(cfg.healingMarker, members) && MembersOnePlace(cfg.healingMarker, members)
    requires MembersDistinct(members) && Fresh(obj, members)
    requires Asks(cfg, MisreadInMembers(cfg.healingMarker, members, st.path))
    ensures Differ(CleanMembers(cfg, members, obj, st), MembersAt(cfg, members, obj, st.path, st.found))
    decreases members, 0
  {
    var key, value := members[0].key, members[0].value;
    if value.Str? {
      FreshStep(obj, members, value);
      MembersMisread(cfg, members[1..], Put(obj, key, value), st);
      return;
    }
    var inside := st.(path := st.path + [key]);
    var c := Clean(cfg, value, inside).value;
    var p := CleanAt(cfg, value, inside.path, st.found).value;
    var popped := c.state.(path := c.state.path[..|c.state.path| - 1]);
    if !Tidy(cfg.healingMarker, value) {
      Misreading(cfg, value, inside);
      DifferenceStays(cfg, members, obj, c.value, p.value, popped, st.path, p.found);
    } else {
      TidyIsRight(cfg, value, inside);
      FreshStep(obj, members, c.value);
      var more := Put(obj, key, c.value);
      if LeavesKey(cfg.healingMarker, value) {
        MarkedIsFollowedByNone(cfg.healingMarker, members);
        FirstPartIsThere(cfg.healingMarker, members[1..]);
        OtherMember(cfg, members, st.path);
        KeyIsLeftIff(cfg, value, inside);
        PartIsMisread(cfg, members[1..], more, popped, st.path);
      } else {
        MembersMisread(cfg, members[1..], more, popped);
      }
    }
  }

  /** No other member is marked beside one that leaves a key behind, so that one of them must be looked up. */
  lemma MarkedIsFollowedByNone(m: string, members: seq<Member>)
    requires members != [] && LeavesKey(m, members[0].value) && MembersOnePlace(m, members)
    ensures !MembersHave(m, members[1..]) && MembersTidy(m, members[1..])
  {
    if !HasMarker(m, members[0].value) {
      NoMarkerLeavesNoKey(m, members[0].value);
    }
    NoMarkerMembersLeaveNoKey(m, members[1..]);
    MembersOnSpineAreTidy(m, members[1..]);
  }

  /** A path to another member does not lead through this one. */
  lemma OtherMember(cfg: Config, members: seq<Member>, path: Path)
    requires members != [] && MembersDistinct(members) && HasKey(members[1..], FirstPart(members[1..]))
    requires Asks(cfg, path + [FirstPart(members[1..])])
    ensures Unlisted(cfg, path + [members[0].key])
  {
    forall p | IsPrefix(path + [members[0].key], p) ensures p !in cfg.argsPaths {
      assert p[|path|] == members[0].key;
    }
  }

  // ----- right results -----

  /** The value and the flag, or the failure, are those of the cleaning at the true paths. */
  ghost predicate ResultRight(cfg: Config, j: Json) {
    var c, p := Clean(cfg, j, State([], false)), CleanAt(cfg, j, [], false);
    (c.Err? <==> p.Err?) && (c.Ok? ==> c.value.value == p.value.value && c.value.state.found == p.value.found)
  }

  /** Of a parsed value the cleaner makes what it should, for all lists of paths, exactly when its path is right at
      every lookup. */
  lemma ResultIsRightIff(cfg: Config, j: Json)
    requires Parsed(cfg.healingMarker, j)
    ensures (forall argsPaths, contentPaths :: ResultRight(Listing(cfg, argsPaths, contentPaths), j)) <==> Tidy(cfg.healingMarker, j)
  {
    if Tidy(cfg.healingMarker, j) {
      forall argsPaths: seq<Path>, contentPaths: seq<Path> ensures ResultRight(Listing(cfg, argsPaths, contentPaths), j) {
        TidyIsRight(Listing(cfg, argsPaths, contentPaths), j, State([], false));
      }
    } else {
      var asking := Listing(cfg, [Misread(cfg.healingMarker, j, [])], []);
      Misreading(asking, j, State([], false));
      assert !ResultRight(Listing(cfg, asking.argsPaths, asking.contentPaths), j);
    }
  }

  // ----- the key that is written twice -----

  lemma {:induction false} WrittenOnceIsStoredAsWritten(j: Json)
    requires DistinctKeys(j)
    ensures Stored(j) == j
    decreases j, 1
  {
    match j
    case Arr(items) => ItemsStoredAsWritten(items);
    case Obj(members) => MembersStoredAsWritten(members, []);
    case _ =>
  }

  lemma {:induction false} ItemsStoredAsWritten(items: seq<Json>)
    requires ItemsDistinct(items)
    ensures StoredItems(items) == items
    decreases items, 0
  {
    if items != [] {
      WrittenOnceIsStoredAsWritten(items[0]);
      ItemsStoredAsWritten(items[1..]);
    }
  }

  lemma {:induction false} MembersStoredAsWritten(members: seq<Member>, obj: seq<Member>)
    requires MembersDistinct(members) && Fresh(obj, members)
    ensures StoredMembers(members, obj) == obj + members
    decreases members, 0
  {
    if members != [] {
      WrittenOnceIsStoredAsWritten(members[0].value);
      FreshStep(obj, members, members[0].value);
      MembersStoredAsWritten(members[1..], obj + [members[0]]);
      assert obj + [members[0]] + members[1..] == obj + members;
    }
  }

  /** A truncated text is cleaned as it should be, for all lists of paths, unless a part of its value is looked up
      after one that leaves a key behind. If no key is written twice, there is none. */
  lemma TextIsCleanedRightIff(cfg: Config, text: Json)
    requires OnSpine(cfg.healingMarker, text)
    ensures (forall argsPaths, contentPaths :: ResultRight(Listing(cfg, argsPaths, contentPaths), Stored(text)))
       <==> Tidy(cfg.healingMarker, Stored(text))
    ensures DistinctKeys(text) ==> Tidy(cfg.healingMarker, Stored(text))
  {
    StoredIsParsed(cfg.healingMarker, text);
    ResultIsRightIff(cfg, Stored(text));
    if DistinctKeys(text) {
      WrittenOnceIsStoredAsWritten(text);
      OnSpineIsTidy(cfg.healingMarker, text);
    }
  }

  lemma OtherCharacter(c: char, d: char)
    requires c != d
    ensures !Contains([c], [d])
  {
    assert [c][0..1] == [c];
    assert Find([c], [d], 0) == Find([c], [d], 1);
  }

  const OPEN: Member := Member("a", Obj([Member("b", Str("M"))]))

  /** `{"a": 0, "c": 1, "a": {"b": "M"}}`, the marker being "M", for the text `{"a": 0, "c": 1, "a": {"b": "`. */
  const TWICE: seq<Member> := [Member("a", Number("0")), Member("c", Number("1")), OPEN]

  lemma TwiceIsStored()
    ensures StoredMembers(TWICE, []) == [OPEN, Member("c", Number("1"))]
  {
    var one, two := [Member("a", Number("0"))], [Member("a", Number("0")), Member("c", Number("1"))];
    assert Put(one, "c", Number("1")) == two && Put(two, "a", OPEN.value) == [OPEN, Member("c", Number("1"))];
    assert StoredMembers(OPEN.value.members, []) == OPEN.value.members;
    assert StoredMembers(TWICE[2..], two) == StoredMembers([], Put(two, "a", OPEN.value));
    assert StoredMembers(TWICE[1..], one) == StoredMembers(TWICE[1..][1..], Put(one, "c", Number("1")));
  }

  lemma TwiceIsOnSpine()
    requires !Contains("a", "M") && !Contains("b", "M") && !Contains("c", "M")
    ensures OnSpine("M", Obj(TWICE))
  {
    assert OPEN.value.members[1..] == [];
    assert MembersOnSpine("M", OPEN.value.members);
    var last, two := [OPEN], [Member("c", Number("1")), OPEN];
    assert last[1..] == [] && two[1..] == last && TWICE[1..] == two;
    assert MembersOnSpine("M", last);
    assert MembersOnSpine("M", two) by {
      assert !HasMarker("M", two[0].value) && OnSpine("M", two[0].value);
    }
    assert !HasMarker("M", TWICE[0].value) && OnSpine("M", TWICE[0].value);
  }

  /** Asked for as text, "c" stays a number. */
  lemma KeyWrittenTwiceIsMisread(cfg: Config)
    requires cfg.healingMarker == "M" && cfg.argsPaths == [["c"]] && cfg.contentPaths == []
    ensures OnSpine("M", Obj(TWICE))
    ensures !ResultRight(cfg, Stored(Obj(TWICE)))
  {
    FindIs("M", "M", 0, 0);
    OtherCharacter('a', 'M');
    OtherCharacter('b', 'M');
    OtherCharacter('c', 'M');
    TwiceIsStored();
    var stored := Stored(Obj(TWICE));
    var rest := [Member("c", Number("1"))];
    assert stored.members[1..] == rest && LeavesKey("M", OPEN.value) && MembersLookUp("M", rest);
    assert [] + [FirstPart(rest)] == ["c"];
    TwiceIsOnSpine();
    StoredIsParsed("M", Obj(TWICE));
    Misreading(cfg, stored, State([], false));
  }
}
