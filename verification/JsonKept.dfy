/** What the JSON cleaner keeps: no part of an object or array before the one
    that the truncation went through is dropped
    (llama.cpp/common/chat-parser.cpp:294-381). */
module JsonKept {
  import opened Wrappers
  import opened Text
  import opened JsonCleaner
  import opened JsonPaths

  /** Objects as the JSON parser makes them: no key twice. */
  ghost predicate DistinctKeys(j: Json)
    decreases j, 1
  {
    match j
    case Arr(items) => ItemsDistinct(items)
    case Obj(members) => MembersDistinct(members)
    case _ => true
  }

  ghost predicate ItemsDistinct(items: seq<Json>)
    decreases items, 0
  {
    items == [] || (DistinctKeys(items[0]) && ItemsDistinct(items[1..]))
  }

  ghost predicate MembersDistinct(members: seq<Member>)
    decreases members, 0
  {
    members == [] ||
    (&& DistinctKeys(members[0].value) && MembersDistinct(members[1..])
     && !HasKey(members[1..], members[0].key))
  }

  predicate HasKey(members: seq<Member>, key: string) {
    members != [] && (members[0].key == key || HasKey(members[1..], key))
  }

  // ----- what may be lost -----

  /** `r` is `s` up to the first occurrence of `marker`, or all of it if there is none. */
  ghost predicate CutBefore(s: string, marker: string, r: string) {
    if forall i: nat {:trigger OccursAt(s, marker, i)} :: !OccursAt(s, marker, i) then r == s
    else
      && r <= s && OccursAt(s, marker, |r|)
      && forall i: nat {:trigger OccursAt(s, marker, i)} :: i < |r| ==> !OccursAt(s, marker, i)
  }

  /** The text of the arguments `dump`: all of it before the dump marker, of which a quote alone is dropped. */
  ghost predicate ArgumentText(cfg: Config, dump: string, r: string) {
    if !cfg.isPartial || cfg.marker == "" then r == dump
    else if CutBefore(dump, cfg.dumpMarker, "\"") then r == ""
    else CutBefore(dump, cfg.dumpMarker, r)
  }

  /** `r` is `j` with less at its open end: text at a listed path is the value's text up to the marker, an object or
      array keeps its parts in order, and every other value is the same. The path of the value is `where`, and
      None after a break has left a key behind: then it may or may not be taken for a listed one. */
  ghost predicate Shortens(cfg: Config, r: Json, j: Json, where: Option<Path>)
    decreases j, 1
  {
    if where.Some? && where.value in cfg.argsPaths then r.Str? && ArgumentText(cfg, cfg.dump(j), r.s)
    else if where.Some? && where.value in cfg.contentPaths then r.Str? && j.Str? && CutBefore(j.s, cfg.marker, r.s)
    else
      || (where.None? && r.Str? && (ArgumentText(cfg, cfg.dump(j), r.s) || (j.Str? && CutBefore(j.s, cfg.marker, r.s))))
      || match j
         case Arr(items) => r.Arr? && ItemsShorten(cfg, r.items, items, where)
         case Obj(members) => r.Obj? && MembersShorten(cfg, r.members, members, where)
         case _ => r == j
  }

  /** Where the path stands after a part. */
  ghost function After(cfg: Config, j: Json, where: Option<Path>): Option<Path> {
    if LeavesKey(cfg.healingMarker, j) then None else where
  }

  function Inside(where: Option<Path>, key: string): Option<Path> {
    if where.Some? then Some(where.value + [key]) else None
  }

  /** Items are missing from the first string that holds the marker on, and no others. */
  ghost predicate ItemsShorten(cfg: Config, rs: seq<Json>, items: seq<Json>, where: Option<Path>)
    decreases items, 0
  {
    if items == [] || (items[0].Str? && Contains(items[0].s, cfg.healingMarker)) then rs == []
    else
      && rs != [] && Shortens(cfg, rs[0], items[0], where)
      && ItemsShorten(cfg, rs[1..], items[1..], After(cfg, items[0], where))
  }

  /** Members are missing from the first that holds the marker in its key or, as a string, in its value on. A marked
      string is itself there, cut, at a content path whose marker shows inside it. */
  ghost predicate MembersShorten(cfg: Config, rs: seq<Member>, members: seq<Member>, where: Option<Path>)
    decreases members, 0
  {
    if members == [] || Contains(members[0].key, cfg.healingMarker) then rs == []
    else
      var key, value := members[0].key, members[0].value;
      if value.Str? && Contains(value.s, cfg.healingMarker) then
        var cut := |rs| == 1 && rs[0].key == key && Shortens(cfg, rs[0].value, value, Inside(where, key));
        if where.None? then rs == [] || cut
        else if where.value + [key] in cfg.contentPaths && cfg.marker == cfg.dumpMarker then cut
        else rs == []
      else
        && rs != [] && rs[0].key == key
        && (if value.Str? then rs[0].value == value else Shortens(cfg, rs[0].value, value, Inside(where, key)))
        && MembersShorten(cfg, rs[1..], members[1..], After(cfg, value, where))
  }

  /** In texts without repeated keys the marked part is the last one, so that nothing else is missing. */
  lemma {:induction false} OnlyTheLastIsMissing(cfg: Config, rs: seq<Member>, members: seq<Member>, where: Option<Path>)
    requires MembersOnSpine(cfg.healingMarker, members) && MembersShorten(cfg, rs, members, where)
    ensures |members| - 1 <= |rs| <= |members|
    ensures forall i :: 0 <= i < |rs| ==> rs[i].key == members[i].key
  {
    if members != [] && rs != [] {
      var key, value := members[0].key, members[0].value;
      if !(value.Str? && Contains(value.s, cfg.healingMarker)) {
        OnlyTheLastIsMissing(cfg, rs[1..], members[1..], After(cfg, value, where));
        assert forall i :: 0 < i < |rs| ==> rs[i] == rs[1..][i - 1] && members[i] == members[1..][i - 1];
      }
    }
  }

  lemma {:induction false} PutAppends(obj: seq<Member>, key: string, value: Json)
    requires !HasKey(obj, key)
    ensures Put(obj, key, value) == obj + [Member(key, value)]
  {
    if obj != [] {
      PutAppends(obj[1..], key, value);
    }
  }

  lemma {:induction false} HasKeyOfAppend(obj: seq<Member>, m: Member, key: string)
    ensures HasKey(obj + [m], key) <==> HasKey(obj, key) || m.key == key
  {
    if obj != [] {
      assert (obj + [m])[1..] == obj[1..] + [m];
      HasKeyOfAppend(obj[1..], m, key);
    }
  }

  /** The members still to come have keys that the object does not have yet. */
  ghost predicate Fresh(obj: seq<Member>, members: seq<Member>) {
    forall key :: HasKey(members, key) ==> !HasKey(obj, key)
  }

  lemma FreshStep(obj: seq<Member>, members: seq<Member>, value: Json)
    requires members != [] && MembersDistinct(members) && Fresh(obj, members)
    ensures Put(obj, members[0].key, value) == obj + [Member(members[0].key, value)]
    ensures Fresh(Put(obj, members[0].key, value), members[1..])
  {
    var key := members[0].key;
    PutAppends(obj, key, value);
    forall other | HasKey(members[1..], other)
      ensures !HasKey(obj + [Member(key, value)], other)
    {
      HasKeyOfAppend(obj, Member(key, value), other);
    }
  }

  // ----- the text at a listed path -----

  lemma CutIsBefore(s: string, marker: string)
    ensures var idx := Find(s, marker, 0); CutBefore(s, marker, if idx.Some? then s[..idx.value] else s)
  {
    var idx := Find(s, marker, 0);
    if idx.Some? {
      assert OccursAt(s, marker, idx.value);
    }
  }

  /** There is one text before a marker. */
  lemma CutIsUnique(s: string, marker: string, r: string, r': string)
    requires CutBefore(s, marker, r) && CutBefore(s, marker, r')
    ensures r == r'
  {
    if i: nat :| OccursAt(s, marker, i) {
      assert r == s[..|r|] && r' == s[..|r'|];
    }
  }

  lemma DumpedIsArgumentText(cfg: Config, j: Json)
    ensures ArgumentText(cfg, cfg.dump(j), DumpedArguments(cfg, j).0)
  {
    var dump := cfg.dump(j);
    CutIsBefore(dump, cfg.dumpMarker);
    if CutBefore(dump, cfg.dumpMarker, "\"") {
      var idx := Find(dump, cfg.dumpMarker, 0);
      CutIsUnique(dump, cfg.dumpMarker, "\"", if idx.Some? then dump[..idx.value] else dump);
    }
  }

  // ----- the cleaner loses no more -----

  /** The path is known to be the shared one, or nothing is known of it. */
  ghost predicate Known(where: Option<Path>, path: Path) {
    where.Some? ==> where.value == path
  }

  lemma {:induction false} CleanedShortens(cfg: Config, j: Json, st: State, where: Option<Path>)
    requires DistinctKeys(j) && Known(where, st.path) && Clean(cfg, j, st).Ok?
    ensures var c := Clean(cfg, j, st).value;
            Shortens(cfg, c.value, j, where) && Known(After(cfg, j, where), c.state.path)
    decreases j, 1
  {
    if st.path in cfg.argsPaths {
      DumpedIsArgumentText(cfg, j);
    } else if st.path in cfg.contentPaths {
      if j.Str? {
        CutIsBefore(j.s, cfg.marker);
      }
    } else {
      match j
      case Obj(members) =>
        var rs := MembersShortened(cfg, members, [], st, where);
        assert [] + rs == rs;
      case Arr(items) =>
        var rs := ItemsShortened(cfg, items, [], st, where);
        assert [] + rs == rs;
      case _ =>
    }
  }

  lemma {:induction false} ItemsShortened(cfg: Config, items: seq<Json>, arr: seq<Json>, st: State, where: Option<Path>)
      returns (rs: seq<Json>)
    requires ItemsDistinct(items) && Known(where, st.path) && CleanItems(cfg, items, arr, st).Ok?
    ensures var c := CleanItems(cfg, items, arr, st).value;
            && c.value == arr + rs && ItemsShorten(cfg, rs, items, where)
            && (!ItemsLeaveKey(cfg.healingMarker, items) ==> Known(where, c.state.path))
    decreases items, 0
  {
    if items == [] || (items[0].Str? && Contains(items[0].s, cfg.healingMarker)) {
      rs := [];
    } else {
      CleanedShortens(cfg, items[0], st, where);
      var c := Clean(cfg, items[0], st).value;
      var more := ItemsShortened(cfg, items[1..], arr + [c.value], c.state, After(cfg, items[0], where));
      rs := [c.value] + more;
      assert arr + rs == arr + [c.value] + more && rs[1..] == more;
    }
  }

  lemma {:induction false} MarkedStringShortened(cfg: Config, members: seq<Member>, obj: seq<Member>, st: State,
                                                 where: Option<Path>) returns (rs: seq<Member>)
    requires members != [] && MembersDistinct(members) && Fresh(obj, members) && Known(where, st.path)
    requires !Contains(members[0].key, cfg.healingMarker)
    requires members[0].value.Str? && Contains(members[0].value.s, cfg.healingMarker)
    requires CleanMembers(cfg, members, obj, st).Ok?
    ensures CleanMembers(cfg, members, obj, st).value.value == obj + rs && MembersShorten(cfg, rs, members, where)
    decreases members, 0
  {
    var key, value := members[0].key, members[0].value;
    var marked := State(st.path + [key], true);
    if marked.path in cfg.contentPaths && cfg.marker == cfg.dumpMarker {
      CleanedShortens(cfg, value, marked, Inside(where, key));
      var c := Clean(cfg, value, marked).value;
      FreshStep(obj, members, c.value);
      rs := [Member(key, c.value)];
    } else {
      rs := [];
    }
  }

  /** One member that is not marked itself, put before the shortened others. */
  lemma Prepended(cfg: Config, first: Member, more: seq<Member>, members: seq<Member>, where: Option<Path>,
                  obj: seq<Member>)
    requires members != [] && !Contains(members[0].key, cfg.healingMarker) && first.key == members[0].key
    requires if members[0].value.Str? then !Contains(members[0].value.s, cfg.healingMarker) && first == members[0]
             else Shortens(cfg, first.value, members[0].value, Inside(where, first.key))
    requires MembersShorten(cfg, more, members[1..], After(cfg, members[0].value, where))
    ensures MembersShorten(cfg, [first] + more, members, where) && (obj + [first]) + more == obj + ([first] + more)
  {
    assert ([first] + more)[1..] == more;
  }

  lemma {:induction false} MembersShortened(cfg: Config, members: seq<Member>, obj: seq<Member>, st: State, where: Option<Path>)
      returns (rs: seq<Member>)
    requires MembersDistinct(members) && Fresh(obj, members) && Known(where, st.path)
    requires CleanMembers(cfg, members, obj, st).Ok?
    ensures var c := CleanMembers(cfg, members, obj, st).value;
            && c.value == obj + rs && MembersShorten(cfg, rs, members, where)
            && (!MembersLeaveKey(cfg.healingMarker, members) ==> Known(where, c.state.path))
    decreases members, 1
  {
    if members == [] || Contains(members[0].key, cfg.healingMarker) {
      return [];
    }
    var key, value := members[0].key, members[0].value;
    var inside := st.(path := st.path + [key]);
    if value.Str? && Contains(value.s, cfg.healingMarker) {
      rs := MarkedStringShortened(cfg, members, obj, st, where);
      return;
    }
    var first, next := members[0], st;
    if !value.Str? {
      CleanedShortens(cfg, value, inside, Inside(where, key));
      var c := Clean(cfg, value, inside).value;
      first, next := Member(key, c.value), c.state.(path := c.state.path[..|c.state.path| - 1]);
    }
    FreshStep(obj, members, first.value);
    assert CleanMembers(cfg, members, obj, st) == CleanMembers(cfg, members[1..], obj + [first], next);
    var more := MembersShortened(cfg, members[1..], obj + [first], next, After(cfg, value, where));
    Prepended(cfg, first, more, members, where, obj);
    rs := [first] + more;
  }

  /** Cleaning a value, wherever the marker of a truncated one is, loses nothing of an object or array before the part
      that the truncation went through. A complete value of which no text is asked for is the same. */
  lemma HealedKeepsTheRest(cfg: Config, j: Json)
    requires DistinctKeys(j)
    ensures var r := Consume(cfg, j);
            r.Ok? ==> if cfg.marker == "" && cfg.argsPaths == [] then r.value.0 == j
                      else Shortens(cfg, r.value.0, j, Some([]))
  {
    if Consume(cfg, j).Ok? {
      if cfg.marker == "" && [] in cfg.argsPaths {
        DumpedIsArgumentText(cfg, j);
      } else if !(cfg.marker == "" && cfg.argsPaths == []) {
        CleanedShortens(cfg, j, State([], false), Some([]));
      }
    }
  }

  // ----- when there is no result -----

  /** Some part at a content path, before the break of its object or array, is no string. */
  ghost predicate Misplaced(cfg: Config, j: Json, path: Path)
    decreases j, 1
  {
    path !in cfg.argsPaths &&
    if path in cfg.contentPaths then !j.Str?
    else match j
      case Arr(items) => ItemsMisplaced(cfg, items, path)
      case Obj(members) => MembersMisplaced(cfg, members, path)
      case _ => false
  }

  ghost predicate ItemsMisplaced(cfg: Config, items: seq<Json>, path: Path)
    decreases items, 0
  {
    && items != [] && !(items[0].Str? && Contains(items[0].s, cfg.healingMarker))
    && (Misplaced(cfg, items[0], path) || ItemsMisplaced(cfg, items[1..], path))
  }

  ghost predicate MembersMisplaced(cfg: Config, members: seq<Member>, path: Path)
    decreases members, 0
  {
    && members != [] && !Contains(members[0].key, cfg.healingMarker)
    && !(members[0].value.Str? && Contains(members[0].value.s, cfg.healingMarker))
    && ((!members[0].value.Str? && Misplaced(cfg, members[0].value, path + [members[0].key]))
        || MembersMisplaced(cfg, members[1..], path))
  }

  lemma {:induction false} FailsIffMisplaced(cfg: Config, j: Json, path: Path, found: bool)
    ensures CleanAt(cfg, j, path, found).Err? <==> Misplaced(cfg, j, path)
    decreases j, 1
  {
    if path !in cfg.argsPaths && path !in cfg.contentPaths {
      match j
      case Obj(members) => MembersFailIffMisplaced(cfg, members, [], path, found);
      case Arr(items) => ItemsFailIffMisplaced(cfg, items, [], path, found);
      case _ =>
    }
  }

  lemma {:induction false} ItemsFailIffMisplaced(cfg: Config, items: seq<Json>, arr: seq<Json>, path: Path, found: bool)
    ensures ItemsAt(cfg, items, arr, path, found).Err? <==> ItemsMisplaced(cfg, items, path)
    decreases items, 0
  {
    if items != [] && !(items[0].Str? && Contains(items[0].s, cfg.healingMarker)) {
      FailsIffMisplaced(cfg, items[0], path, found);
      var c := CleanAt(cfg, items[0], path, found);
      if c.Ok? {
        ItemsFailIffMisplaced(cfg, items[1..], arr + [c.value.value], path, c.value.found);
      }
    }
  }

  lemma {:induction false} MembersFailIffMisplaced(cfg: Config, members: seq<Member>, obj: seq<Member>, path: Path, found: bool)
    ensures MembersAt(cfg, members, obj, path, found).Err? <==> MembersMisplaced(cfg, members, path)
    decreases members, 0
  {
    if members != [] && !Contains(members[0].key, cfg.healingMarker) {
      var key, value := members[0].key, members[0].value;
      if !value.Str? {
        FailsIffMisplaced(cfg, value, path + [key], found);
        var c := CleanAt(cfg, value, path + [key], found);
        if c.Ok? {
          MembersFailIffMisplaced(cfg, members[1..], Put(obj, key, c.value.value), path, c.value.found);
        }
      } else if Contains(value.s, cfg.healingMarker) {
        assert CleanAt(cfg, value, path + [key], true).Ok?;
      } else {
        MembersFailIffMisplaced(cfg, members[1..], Put(obj, key, value), path, found);
      }
    }
  }

  /** The only failure, and exactly when there is one: while the path is right, a part at a content path that is no
      string. */
  lemma ConsumeFailsIff(cfg: Config, j: Json)
    requires Tidy(cfg.healingMarker, j)
    ensures Consume(cfg, j).Err? <==> !(cfg.marker == "" && cfg.argsPaths == []) && Misplaced(cfg, j, [])
  {
    TidyIsRight(cfg, j, State([], false));
    FailsIffMisplaced(cfg, j, [], false);
  }

  // ----- complete parts -----

  /** A part without the marker that holds no listed path is kept as it is. */
  lemma {:induction false} CompletePartIsKept(cfg: Config, r: Json, j: Json, path: Path)
    requires Shortens(cfg, r, j, Some(path)) && !HasMarker(cfg.healingMarker, j) && Unlisted(cfg, path)
    ensures r == j
    decreases j, 1
  {
    assert IsPrefix(path, path);
    match j
    case Arr(items) => CompleteItemsAreKept(cfg, r.items, items, path);
    case Obj(members) => CompleteMembersAreKept(cfg, r.members, members, path);
    case _ =>
  }

  lemma {:induction false} CompleteItemsAreKept(cfg: Config, rs: seq<Json>, items: seq<Json>, path: Path)
    requires ItemsShorten(cfg, rs, items, Some(path)) && !ItemsHave(cfg.healingMarker, items) && Unlisted(cfg, path)
    ensures rs == items
    decreases items, 0
  {
    if items != [] {
      NoMarkerLeavesNoKey(cfg.healingMarker, items[0]);
      CompletePartIsKept(cfg, rs[0], items[0], path);
      CompleteItemsAreKept(cfg, rs[1..], items[1..], path);
      assert rs == [rs[0]] + rs[1..] && items == [items[0]] + items[1..];
    }
  }

  lemma {:induction false} CompleteMembersAreKept(cfg: Config, rs: seq<Member>, members: seq<Member>, path: Path)
    requires MembersShorten(cfg, rs, members, Some(path)) && !MembersHave(cfg.healingMarker, members) && Unlisted(cfg, path)
    ensures rs == members
    decreases members, 0
  {
    if members != [] {
      var inner := path + [members[0].key];
      NoMarkerLeavesNoKey(cfg.healingMarker, members[0].value);
      if !(members[0].value.Str? && !Contains(members[0].value.s, cfg.healingMarker)) {
        forall p | IsPrefix(inner, p) ensures IsPrefix(path, p) {
          assert path <= inner;
        }
        CompletePartIsKept(cfg, rs[0].value, members[0].value, inner);
      }
      CompleteMembersAreKept(cfg, rs[1..], members[1..], path);
      assert rs == [rs[0]] + rs[1..] && members == [members[0]] + members[1..];
    }
  }
}
