/** When the shared path of the JSON cleaner is the path of the value at hand
    (llama.cpp/common/chat-parser.cpp:294-373). */
module JsonPaths {
  import opened Wrappers
  import opened Text
  import opened JsonCleaner

  // ----- where the marker is -----

  ghost predicate HasMarker(m: string, j: Json)
    decreases j, 1
  {
    match j
    case Str(s) => Contains(s, m)
    case Arr(items) => ItemsHave(m, items)
    case Obj(members) => MembersHave(m, members)
    case _ => false
  }

  ghost predicate ItemsHave(m: string, items: seq<Json>)
    decreases items, 0
  {
    items != [] && (HasMarker(m, items[0]) || ItemsHave(m, items[1..]))
  }

  ghost predicate MembersHave(m: string, members: seq<Member>)
    decreases members, 0
  {
    members != [] && (Contains(members[0].key, m) || HasMarker(m, members[0].value) || MembersHave(m, members[1..]))
  }

  // ----- cleaning with the true path of every value -----

  datatype Plain<T> = Plain(value: T, found: bool)

  function CleanAt(cfg: Config, j: Json, path: Path, found: bool): (r: Result<Plain<Json>, CleanError>)
    ensures r.Err? ==> cfg.contentPaths != []
    decreases j, 1
  {
    if path in cfg.argsPaths then
      var (arguments, cut) := DumpedArguments(cfg, j);
      Ok(Plain(Str(arguments), found || cut))
    else if path in cfg.contentPaths then
      if !j.Str? then Err(ContentIsNotAString)
      else
        var (s, cut) := CutContent(cfg, j.s);
        Ok(Plain(Str(s), found || cut))
    else match j
      case Obj(members) =>
        var r := MembersAt(cfg, members, [], path, found);
        if r.Err? then Err(r.error) else Ok(Plain(Obj(r.value.value), r.value.found))
      case Arr(items) =>
        var r := ItemsAt(cfg, items, [], path, found);
        if r.Err? then Err(r.error) else Ok(Plain(Arr(r.value.value), r.value.found))
      case _ => Ok(Plain(j, found))
  }

  /** `path` is that of the object throughout; a member is cleaned at `path` followed by its own key. */
  function MembersAt(cfg: Config, members: seq<Member>, obj: seq<Member>, path: Path, found: bool)
    : (r: Result<Plain<seq<Member>>, CleanError>)
    ensures r.Err? ==> cfg.contentPaths != []
    decreases members, 0
  {
    if members == [] then Ok(Plain(obj, found))
    else
      var key, value := members[0].key, members[0].value;
      if Contains(key, cfg.healingMarker) then Ok(Plain(obj, true))
      else if value.Str? && !Contains(value.s, cfg.healingMarker) then
        MembersAt(cfg, members[1..], Put(obj, key, value), path, found)
      else if value.Str? && !(path + [key] in cfg.contentPaths && cfg.marker == cfg.dumpMarker) then
        Ok(Plain(obj, true))
      else
        var c := CleanAt(cfg, value, path + [key], found || value.Str?);
        if c.Err? then Err(c.error)
        else
          var more := Put(obj, key, c.value.value);
          if value.Str? then Ok(Plain(more, c.value.found))
          else MembersAt(cfg, members[1..], more, path, c.value.found)
  }

  function ItemsAt(cfg: Config, items: seq<Json>, arr: seq<Json>, path: Path, found: bool)
    : (r: Result<Plain<seq<Json>>, CleanError>)
    ensures r.Err? ==> cfg.contentPaths != []
    decreases items, 0
  {
    if items == [] then Ok(Plain(arr, found))
    else if items[0].Str? && Contains(items[0].s, cfg.healingMarker) then Ok(Plain(arr, true))
    else
      var c := CleanAt(cfg, items[0], path, found);
      if c.Err? then Err(c.error) else ItemsAt(cfg, items[1..], arr + [c.value.value], path, c.value.found)
  }

  // ----- the shared path is the true path -----

  /** Wherever the cleaner looks its shared path up, it is the true path `truth` of the value at hand. */
  ghost predicate PathRight(cfg: Config, j: Json, st: State, truth: Path)
    decreases j, 1
  {
    && st.path == truth
    && (st.path in cfg.argsPaths || st.path in cfg.contentPaths ||
        match j
        case Obj(members) => MembersPathRight(cfg, members, st, truth)
        case Arr(items) => ItemsPathRight(cfg, items, st, truth)
        case _ => true)
  }

  ghost predicate MembersPathRight(cfg: Config, members: seq<Member>, st: State, truth: Path)
    decreases members, 0
  {
    members == [] || Contains(members[0].key, cfg.healingMarker) ||
    var key, value := members[0].key, members[0].value;
    var inside := st.(path := st.path + [key]);
    if value.Str? then
      if Contains(value.s, cfg.healingMarker) then inside.path == truth + [key]
      else MembersPathRight(cfg, members[1..], st, truth)
    else
      && PathRight(cfg, value, inside, truth + [key])
      && var c := Clean(cfg, value, inside);
         (c.Ok? ==>
            var left := c.value.state.path;
            MembersPathRight(cfg, members[1..], c.value.state.(path := left[..|left| - 1]), truth))
  }

  ghost predicate ItemsPathRight(cfg: Config, items: seq<Json>, st: State, truth: Path)
    decreases items, 0
  {
    items == [] || (items[0].Str? && Contains(items[0].s, cfg.healingMarker)) ||
    (&& PathRight(cfg, items[0], st, truth)
     && var c := Clean(cfg, items[0], st);
        (c.Ok? ==> ItemsPathRight(cfg, items[1..], c.value.state, truth)))
  }

  // ----- a condition on the value and the marker alone -----

  /** A break below leaves a key on the path: it was for a string, and no break for a key came before it. */
  ghost predicate LeavesKey(m: string, j: Json)
    decreases j, 1
  {
    match j
    case Arr(items) => ItemsLeaveKey(m, items)
    case Obj(members) => MembersLeaveKey(m, members)
    case _ => false
  }

  ghost predicate ItemsLeaveKey(m: string, items: seq<Json>)
    decreases items, 0
  {
    && items != [] && !(items[0].Str? && Contains(items[0].s, m))
    && (LeavesKey(m, items[0]) || ItemsLeaveKey(m, items[1..]))
  }

  ghost predicate MembersLeaveKey(m: string, members: seq<Member>)
    decreases members, 0
  {
    && members != [] && !Contains(members[0].key, m)
    && (LeavesKey(m, members[0].value) || (members[0].value.Str? && Contains(members[0].value.s, m))
        || MembersLeaveKey(m, members[1..]))
  }

  /** The next item is looked up: it is no string that stops the loop. */
  ghost predicate ItemsLookUp(m: string, items: seq<Json>) {
    items != [] && !(items[0].Str? && Contains(items[0].s, m))
  }

  /** Some member is still looked up: strings without the marker are copied, and a marked key stops the loop. */
  ghost predicate MembersLookUp(m: string, members: seq<Member>) {
    && members != [] && !Contains(members[0].key, m)
    && (!members[0].value.Str? || Contains(members[0].value.s, m) || MembersLookUp(m, members[1..]))
  }

  /** No part in which a break leaves a key behind is followed by another part that is looked up. */
  ghost predicate Tidy(m: string, j: Json)
    decreases j, 1
  {
    match j
    case Arr(items) => ItemsTidy(m, items)
    case Obj(members) => MembersTidy(m, members)
    case _ => true
  }

  ghost predicate ItemsTidy(m: string, items: seq<Json>)
    decreases items, 0
  {
    items == [] || (items[0].Str? && Contains(items[0].s, m)) ||
    (&& Tidy(m, items[0]) && ItemsTidy(m, items[1..])
     && (LeavesKey(m, items[0]) ==> !ItemsLookUp(m, items[1..])))
  }

  ghost predicate MembersTidy(m: string, members: seq<Member>)
    decreases members, 0
  {
    members == [] || Contains(members[0].key, m) || (members[0].value.Str? && Contains(members[0].value.s, m)) ||
    (&& Tidy(m, members[0].value) && MembersTidy(m, members[1..])
     && (LeavesKey(m, members[0].value) ==> !MembersLookUp(m, members[1..])))
  }

  // ----- it is sufficient, whatever paths are listed -----

  /** The path a call leaves: the one it found, or that with one key that a break forgot. */
  ghost predicate Leaves(path: Path, after: Path, leaves: bool) {
    path <= after && |after| <= |path| + 1 && (!leaves ==> after == path)
  }

  /** Cleaning with the shared path, with the same result as cleaning every value at its true path. */
  ghost predicate Agrees<T(!new)>(c: Result<Cleaned<T>, CleanError>, p: Result<Plain<T>, CleanError>, path: Path, leaves: bool) {
    && (c.Err? <==> p.Err?)
    && (c.Ok? ==> && c.value.value == p.value.value && c.value.state.found == p.value.found
                  && Leaves(path, c.value.state.path, leaves))
  }

  lemma {:induction false} TidyIsRight(cfg: Config, j: Json, st: State)
    requires Tidy(cfg.healingMarker, j)
    ensures PathRight(cfg, j, st, st.path)
    ensures Agrees(Clean(cfg, j, st), CleanAt(cfg, j, st.path, st.found), st.path, LeavesKey(cfg.healingMarker, j))
    decreases j, 1
  {
    if st.path !in cfg.argsPaths && st.path !in cfg.contentPaths {
      match j
      case Obj(members) => TidyMembersAreRight(cfg, members, [], st);
      case Arr(items) => TidyItemsAreRight(cfg, items, [], st);
      case _ =>
    }
  }

  lemma {:induction false} TidyMembersAreRight(cfg: Config, members: seq<Member>, obj: seq<Member>, st: State)
    requires MembersTidy(cfg.healingMarker, members)
    ensures MembersPathRight(cfg, members, st, st.path)
    ensures Agrees(CleanMembers(cfg, members, obj, st), MembersAt(cfg, members, obj, st.path, st.found), st.path,
                   MembersLeaveKey(cfg.healingMarker, members))
    decreases members, 0
  {
    if members != [] && !Contains(members[0].key, cfg.healingMarker) {
      var key, value := members[0].key, members[0].value;
      var inside := st.(path := st.path + [key]);
      if value.Str? {
        if Contains(value.s, cfg.healingMarker) {
          TidyIsRight(cfg, value, inside.(found := true));
        } else {
          TidyMembersAreRight(cfg, members[1..], Put(obj, key, value), st);
        }
      } else {
        TidyIsRight(cfg, value, inside);
        var c := Clean(cfg, value, inside);
        if c.Ok? {
          var left := c.value.state.path;
          var popped := c.value.state.(path := left[..|left| - 1]);
          if LeavesKey(cfg.healingMarker, value) {
            NothingIsLookedUp(cfg, members[1..], Put(obj, key, c.value.value), popped, st.path);
          } else {
            assert popped.path == st.path;
            TidyMembersAreRight(cfg, members[1..], Put(obj, key, c.value.value), popped);
          }
        }
      }
    }
  }

  /** Members that are only copied: the path does not matter. */
  lemma {:induction false} NothingIsLookedUp(cfg: Config, members: seq<Member>, obj: seq<Member>, st: State, truth: Path)
    requires !MembersLookUp(cfg.healingMarker, members)
    ensures MembersPathRight(cfg, members, st, truth)
    ensures var c, p := CleanMembers(cfg, members, obj, st), MembersAt(cfg, members, obj, truth, st.found);
            && c.Ok? && p.Ok? && c.value.value == p.value.value && c.value.state.found == p.value.found
            && c.value.state.path == st.path
    decreases members, 0
  {
    if members != [] && !Contains(members[0].key, cfg.healingMarker) {
      NothingIsLookedUp(cfg, members[1..], Put(obj, members[0].key, members[0].value), st, truth);
    }
  }

  lemma {:induction false} TidyItemsAreRight(cfg: Config, items: seq<Json>, arr: seq<Json>, st: State)
    requires ItemsTidy(cfg.healingMarker, items)
    ensures ItemsPathRight(cfg, items, st, st.path)
    ensures Agrees(CleanItems(cfg, items, arr, st), ItemsAt(cfg, items, arr, st.path, st.found), st.path,
                   ItemsLeaveKey(cfg.healingMarker, items))
    decreases items, 0
  {
    if items != [] && !(items[0].Str? && Contains(items[0].s, cfg.healingMarker)) {
      TidyIsRight(cfg, items[0], st);
      var c := Clean(cfg, items[0], st);
      if c.Ok? && !LeavesKey(cfg.healingMarker, items[0]) {
        TidyItemsAreRight(cfg, items[1..], arr + [c.value.value], c.value.state);
      }
    }
  }

  // ----- and it is necessary -----

  ghost predicate IsPrefix(path: Path, longer: Path) {
    path <= longer
  }

  /** No listed path is this one or leads through it. */
  ghost predicate Unlisted(cfg: Config, path: Path) {
    && (forall p :: p in cfg.argsPaths ==> !IsPrefix(path, p))
    && (forall p :: p in cfg.contentPaths ==> !IsPrefix(path, p))
  }

  lemma UnlistedInside(cfg: Config, path: Path, longer: Path)
    requires Unlisted(cfg, path) && path <= longer
    ensures path !in cfg.argsPaths && path !in cfg.contentPaths && Unlisted(cfg, longer)
  {
    assert IsPrefix(path, path);
    forall p | IsPrefix(longer, p) ensures IsPrefix(path, p) {
      assert path <= longer;
    }
  }

  ghost predicate NothingListed(cfg: Config) {
    cfg.argsPaths == [] && cfg.contentPaths == []
  }

  /** Where no listed path leads through, a key is left behind exactly where the condition says. */
  lemma {:induction false} KeyIsLeftIff(cfg: Config, j: Json, st: State)
    requires Unlisted(cfg, st.path)
    ensures var c := Clean(cfg, j, st);
            c.Ok? && (LeavesKey(cfg.healingMarker, j) <==> |st.path| < |c.value.state.path|)
    decreases j, 1
  {
    UnlistedInside(cfg, st.path, st.path);
    match j
    case Obj(members) => KeyIsLeftByMembersIff(cfg, members, [], st);
    case Arr(items) => KeyIsLeftByItemsIff(cfg, items, [], st);
    case _ =>
  }

  lemma {:induction false} KeyIsLeftByMembersIff(cfg: Config, members: seq<Member>, obj: seq<Member>, st: State)
    requires Unlisted(cfg, st.path)
    ensures var c := CleanMembers(cfg, members, obj, st);
            c.Ok? && (MembersLeaveKey(cfg.healingMarker, members) <==> |st.path| < |c.value.state.path|)
    decreases members, 0
  {
    if members != [] && !Contains(members[0].key, cfg.healingMarker) {
      var key, value := members[0].key, members[0].value;
      var inside := st.(path := st.path + [key]);
      UnlistedInside(cfg, st.path, inside.path);
      if value.Str? {
        if !Contains(value.s, cfg.healingMarker) {
          KeyIsLeftByMembersIff(cfg, members[1..], Put(obj, key, value), st);
        }
      } else {
        KeyIsLeftIff(cfg, value, inside);
        var c := Clean(cfg, value, inside).value;
        var popped := c.state.(path := c.state.path[..|c.state.path| - 1]);
        UnlistedInside(cfg, st.path, popped.path);
        KeyIsLeftByMembersIff(cfg, members[1..], Put(obj, key, c.value), popped);
      }
    }
  }

  lemma {:induction false} KeyIsLeftByItemsIff(cfg: Config, items: seq<Json>, arr: seq<Json>, st: State)
    requires Unlisted(cfg, st.path)
    ensures var c := CleanItems(cfg, items, arr, st);
            c.Ok? && (ItemsLeaveKey(cfg.healingMarker, items) <==> |st.path| < |c.value.state.path|)
    decreases items, 0
  {
    if items != [] && !(items[0].Str? && Contains(items[0].s, cfg.healingMarker)) {
      KeyIsLeftIff(cfg, items[0], st);
      var c := Clean(cfg, items[0], st).value;
      UnlistedInside(cfg, st.path, c.state.path);
      KeyIsLeftByItemsIff(cfg, items[1..], arr + [c.value], c.state);
    }
  }

  lemma {:induction false} RightIsTidy(cfg: Config, j: Json, st: State, truth: Path)
    requires NothingListed(cfg) && PathRight(cfg, j, st, truth)
    ensures Tidy(cfg.healingMarker, j)
    decreases j, 1
  {
    match j
    case Obj(members) => RightMembersAreTidy(cfg, members, st, truth);
    case Arr(items) => RightItemsAreTidy(cfg, items, st, truth);
    case _ =>
  }

  lemma {:induction false} RightMembersAreTidy(cfg: Config, members: seq<Member>, st: State, truth: Path)
    requires NothingListed(cfg) && MembersPathRight(cfg, members, st, truth)
    ensures MembersTidy(cfg.healingMarker, members)
    ensures |st.path| > |truth| ==> !MembersLookUp(cfg.healingMarker, members)
    decreases members, 0
  {
    if members != [] && !Contains(members[0].key, cfg.healingMarker) {
      var key, value := members[0].key, members[0].value;
      var inside := st.(path := st.path + [key]);
      if value.Str? {
        if !Contains(value.s, cfg.healingMarker) {
          assert Tidy(cfg.healingMarker, value) && !LeavesKey(cfg.healingMarker, value);
          RightMembersAreTidy(cfg, members[1..], st, truth);
        }
      } else {
        RightIsTidy(cfg, value, inside, truth + [key]);
        KeyIsLeftIff(cfg, value, inside);
        var left := Clean(cfg, value, inside).value.state;
        RightMembersAreTidy(cfg, members[1..], left.(path := left.path[..|left.path| - 1]), truth);
      }
    }
  }

  lemma {:induction false} RightItemsAreTidy(cfg: Config, items: seq<Json>, st: State, truth: Path)
    requires NothingListed(cfg) && ItemsPathRight(cfg, items, st, truth)
    ensures ItemsTidy(cfg.healingMarker, items)
    ensures |st.path| > |truth| ==> !ItemsLookUp(cfg.healingMarker, items)
    decreases items, 0
  {
    if items != [] && !(items[0].Str? && Contains(items[0].s, cfg.healingMarker)) {
      RightIsTidy(cfg, items[0], st, truth);
      KeyIsLeftIff(cfg, items[0], st);
      RightItemsAreTidy(cfg, items[1..], Clean(cfg, items[0], st).value.state, truth);
    }
  }

  function Listing(cfg: Config, argsPaths: seq<Path>, contentPaths: seq<Path>): Config {
    cfg.(argsPaths := argsPaths, contentPaths := contentPaths)
  }

  /** The shared path is right at every lookup, for all lists of paths, exactly when no part whose break leaves a key
      behind is followed by another part that is looked up. */
  lemma PathIsTrueIff(cfg: Config, j: Json)
    ensures (forall argsPaths, contentPaths :: PathRight(Listing(cfg, argsPaths, contentPaths), j, State([], false), []))
       <==> Tidy(cfg.healingMarker, j)
  {
    var start := State([], false);
    if Tidy(cfg.healingMarker, j) {
      forall argsPaths: seq<Path>, contentPaths: seq<Path>
        ensures PathRight(Listing(cfg, argsPaths, contentPaths), j, start, [])
      {
        TidyIsRight(Listing(cfg, argsPaths, contentPaths), j, start);
      }
    } else if forall argsPaths, contentPaths :: PathRight(Listing(cfg, argsPaths, contentPaths), j, start, []) {
      assert PathRight(Listing(cfg, [], []), j, start, []);
      RightIsTidy(Listing(cfg, [], []), j, start, []);
    }
  }

  // ----- texts in which no key is repeated -----

  /** Healing closes what is still open. Unless an object repeats a key, whose first place the parser then reuses, a
      marker can only be in the last part of the last part and so on. */
  ghost predicate OnSpine(m: string, j: Json)
    decreases j, 1
  {
    match j
    case Arr(items) => ItemsOnSpine(m, items)
    case Obj(members) => MembersOnSpine(m, members)
    case _ => true
  }

  ghost predicate ItemsOnSpine(m: string, items: seq<Json>)
    decreases items, 0
  {
    items == [] || (OnSpine(m, items[0]) && (ItemsOnSpine(m, items[1..]) && (|items| > 1 ==> !HasMarker(m, items[0]))))
  }

  ghost predicate MembersOnSpine(m: string, members: seq<Member>)
    decreases members, 0
  {
    members == [] ||
    (&& OnSpine(m, members[0].value)
     && MembersOnSpine(m, members[1..])
     && (|members| > 1 ==> !Contains(members[0].key, m) && !HasMarker(m, members[0].value)))
  }

  lemma {:induction false} NoMarkerLeavesNoKey(m: string, j: Json)
    requires !HasMarker(m, j)
    ensures !LeavesKey(m, j) && OnSpine(m, j)
    decreases j, 1
  {
    match j
    case Arr(items) => NoMarkerItemsLeaveNoKey(m, items);
    case Obj(members) => NoMarkerMembersLeaveNoKey(m, members);
    case _ =>
  }

  lemma {:induction false} NoMarkerItemsLeaveNoKey(m: string, items: seq<Json>)
    requires !ItemsHave(m, items)
    ensures !ItemsLeaveKey(m, items) && ItemsOnSpine(m, items)
    decreases items, 0
  {
    if items != [] {
      NoMarkerLeavesNoKey(m, items[0]);
      NoMarkerItemsLeaveNoKey(m, items[1..]);
    }
  }

  lemma {:induction false} NoMarkerMembersLeaveNoKey(m: string, members: seq<Member>)
    requires !MembersHave(m, members)
    ensures !MembersLeaveKey(m, members) && MembersOnSpine(m, members)
    decreases members, 0
  {
    if members != [] {
      NoMarkerLeavesNoKey(m, members[0].value);
      NoMarkerMembersLeaveNoKey(m, members[1..]);
    }
  }

  /** A marker on the rightmost spine is enough for the path to be right. */
  lemma {:induction false} OnSpineIsTidy(m: string, j: Json)
    requires OnSpine(m, j)
    ensures Tidy(m, j)
    decreases j, 1
  {
    match j
    case Arr(items) => ItemsOnSpineAreTidy(m, items);
    case Obj(members) => MembersOnSpineAreTidy(m, members);
    case _ =>
  }

  lemma {:induction false} ItemsOnSpineAreTidy(m: string, items: seq<Json>)
    requires ItemsOnSpine(m, items)
    ensures ItemsTidy(m, items)
    decreases items, 0
  {
    if items != [] {
      OnSpineIsTidy(m, items[0]);
      ItemsOnSpineAreTidy(m, items[1..]);
      if |items| > 1 {
        NoMarkerLeavesNoKey(m, items[0]);
      }
    }
  }

  lemma {:induction false} MembersOnSpineAreTidy(m: string, members: seq<Member>)
    requires MembersOnSpine(m, members)
    ensures MembersTidy(m, members)
    decreases members, 0
  {
    if members != [] {
      OnSpineIsTidy(m, members[0].value);
      MembersOnSpineAreTidy(m, members[1..]);
      if |members| > 1 {
        NoMarkerLeavesNoKey(m, members[0].value);
      }
    }
  }
}
