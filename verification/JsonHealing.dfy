/** Nothing of the healing is left in a cleaned JSON value, and the partial flag tells whether there was any
    (llama.cpp/common/chat-parser.cpp:260-381). */
module JsonHealing {
  import opened Wrappers
  import opened Text
  import opened JsonCleaner
  import opened JsonPaths

  // ----- what is assumed of dumping and healing -----

  /** `dump` shows the marker of a value that holds it, in the form `dumpMarker`, and nothing of it before that. A
      text cut after a key or after a finished item is healed with the marker and the colon or comma before it as
      `dumpMarker`: the marked string alone does not show that, and nothing is assumed of it. */
  ghost predicate DumpShowsMarker(cfg: Config, j: Json) {
    var text := cfg.dump(j);
    var idx := Find(text, cfg.dumpMarker, 0);
    if !HasMarker(cfg.healingMarker, j) then idx.None? && !Contains(text, cfg.healingMarker)
    else if j.Str? && cfg.marker != cfg.dumpMarker then true
    else idx.Some? && !Contains(text[..idx.value], cfg.healingMarker)
  }

  ghost predicate Faithful(cfg: Config, j: Json)
    decreases j, 1
  {
    && DumpShowsMarker(cfg, j)
    && match j
       case Arr(items) => ItemsFaithful(cfg, items)
       case Obj(members) => MembersFaithful(cfg, members)
       case _ => true
  }

  ghost predicate ItemsFaithful(cfg: Config, items: seq<Json>)
    decreases items, 0
  {
    items == [] || (Faithful(cfg, items[0]) && ItemsFaithful(cfg, items[1..]))
  }

  ghost predicate MembersFaithful(cfg: Config, members: seq<Member>)
    decreases members, 0
  {
    members == [] || (Faithful(cfg, members[0].value) && MembersFaithful(cfg, members[1..]))
  }

  /** A truncated text was healed with the parser's own marker. */
  predicate Healed(cfg: Config) {
    cfg.isPartial && cfg.marker == cfg.healingMarker && cfg.healingMarker != ""
  }

  // ----- nothing of the healing is left, and the flag tells -----

  lemma CutHasNoMarker(s: string, m: string)
    requires Find(s, m, 0).Some? && m != ""
    ensures !Contains(s[..Find(s, m, 0).value], m)
  {
    var idx := Find(s, m, 0).value;
    var cut := Find(s[..idx], m, 0);
    if cut.Some? {
      OccursInPrefix(s[..idx], s, m, cut.value);
    }
  }

  lemma {:induction false} PutKeepsClean(m: string, obj: seq<Member>, key: string, value: Json)
    requires !MembersHave(m, obj) && !Contains(key, m) && !HasMarker(m, value)
    ensures !MembersHave(m, Put(obj, key, value))
  {
    if obj != [] && obj[0].key != key {
      PutKeepsClean(m, obj[1..], key, value);
      assert Put(obj, key, value)[1..] == Put(obj[1..], key, value);
    } else if obj == [] {
      assert [Member(key, value)][1..] == [];
    } else {
      assert Put(obj, key, value)[1..] == obj[1..];
    }
  }

  lemma {:induction false} AppendKeepsClean(m: string, arr: seq<Json>, value: Json)
    requires !ItemsHave(m, arr) && !HasMarker(m, value)
    ensures !ItemsHave(m, arr + [value])
  {
    if arr == [] {
      assert (arr + [value])[1..] == [];
    } else {
      AppendKeepsClean(m, arr[1..], value);
      assert (arr + [value])[1..] == arr[1..] + [value];
    }
  }

  lemma ArgumentsAreClean(cfg: Config, j: Json)
    requires Healed(cfg) && DumpShowsMarker(cfg, j)
    requires j.Str? && Contains(j.s, cfg.healingMarker) ==> cfg.marker == cfg.dumpMarker
    ensures var (arguments, cut) := DumpedArguments(cfg, j);
            !Contains(arguments, cfg.healingMarker) && (cut <==> HasMarker(cfg.healingMarker, j))
  {
  }

  /** A marked string is only reached at a content path, and then it is cut inside. */
  ghost predicate Reached(cfg: Config, j: Json, path: Path) {
    j.Str? && Contains(j.s, cfg.healingMarker) ==> path in cfg.contentPaths && cfg.marker == cfg.dumpMarker
  }

  ghost predicate Clears(cfg: Config, r: Result<Cleaned<Json>, CleanError>, found: bool, marked: bool) {
    r.Ok? ==> !HasMarker(cfg.healingMarker, r.value.value) && (r.value.state.found <==> found || marked)
  }

  /** Whatever the shared path is. */
  lemma {:induction false} CleanedHasNoMarker(cfg: Config, j: Json, st: State)
    requires Healed(cfg) && Faithful(cfg, j) && Reached(cfg, j, st.path)
    ensures Clears(cfg, Clean(cfg, j, st), st.found, HasMarker(cfg.healingMarker, j))
    decreases j, 1
  {
    if st.path in cfg.argsPaths {
      ArgumentsAreClean(cfg, j);
    } else if st.path in cfg.contentPaths {
      if j.Str? && Contains(j.s, cfg.marker) {
        CutHasNoMarker(j.s, cfg.marker);
      }
    } else {
      match j
      case Obj(members) => CleanedMembersHaveNoMarker(cfg, members, [], st);
      case Arr(items) => CleanedItemsHaveNoMarker(cfg, items, [], st);
      case _ =>
    }
  }

  lemma {:induction false} CleanedMembersHaveNoMarker(cfg: Config, members: seq<Member>, obj: seq<Member>, st: State)
    requires Healed(cfg) && MembersFaithful(cfg, members) && !MembersHave(cfg.healingMarker, obj)
    ensures var r := CleanMembers(cfg, members, obj, st);
            r.Ok? ==> && !MembersHave(cfg.healingMarker, r.value.value)
                      && (r.value.state.found <==> st.found || MembersHave(cfg.healingMarker, members))
    decreases members, 0
  {
    if members != [] && !Contains(members[0].key, cfg.healingMarker) {
      var m, key, value := cfg.healingMarker, members[0].key, members[0].value;
      var inside := st.(path := st.path + [key]);
      if value.Str? && !Contains(value.s, m) {
        PutKeepsClean(m, obj, key, value);
        CleanedMembersHaveNoMarker(cfg, members[1..], Put(obj, key, value), st);
      } else if value.Str? {
        if inside.path in cfg.contentPaths && cfg.marker == cfg.dumpMarker {
          CleanedHasNoMarker(cfg, value, inside.(found := true));
          var c := Clean(cfg, value, inside.(found := true));
          if c.Ok? {
            PutKeepsClean(m, obj, key, c.value.value);
          }
        }
      } else {
        CleanedHasNoMarker(cfg, value, inside);
        var c := Clean(cfg, value, inside);
        if c.Ok? {
          var left := c.value.state.path;
          PutKeepsClean(m, obj, key, c.value.value);
          CleanedMembersHaveNoMarker(cfg, members[1..], Put(obj, key, c.value.value),
                                     c.value.state.(path := left[..|left| - 1]));
        }
      }
    }
  }

  lemma {:induction false} CleanedItemsHaveNoMarker(cfg: Config, items: seq<Json>, arr: seq<Json>, st: State)
    requires Healed(cfg) && ItemsFaithful(cfg, items) && !ItemsHave(cfg.healingMarker, arr)
    ensures var r := CleanItems(cfg, items, arr, st);
            r.Ok? ==> && !ItemsHave(cfg.healingMarker, r.value.value)
                      && (r.value.state.found <==> st.found || ItemsHave(cfg.healingMarker, items))
    decreases items, 0
  {
    if items != [] && !(items[0].Str? && Contains(items[0].s, cfg.healingMarker)) {
      CleanedHasNoMarker(cfg, items[0], st);
      var c := Clean(cfg, items[0], st);
      if c.Ok? {
        AppendKeepsClean(cfg.healingMarker, arr, c.value.value);
        CleanedItemsHaveNoMarker(cfg, items[1..], arr + [c.value.value], c.value.state);
      }
    }
  }

  /** The result of a truncated JSON text (a lone string is never healed), wherever the truncation put the marker and
      right or wrong as the shared path may be: no key, string or argument text holds any of the marker, and the value
      is reported as partial exactly when the marker was in it. */
  lemma HealedIsCleaned(cfg: Config, j: Json)
    requires Healed(cfg) && Faithful(cfg, j) && !(j.Str? && Contains(j.s, cfg.healingMarker))
    ensures var r := Consume(cfg, j);
            r.Ok? ==> && !HasMarker(cfg.healingMarker, r.value.0)
                      && (r.value.1 <==> HasMarker(cfg.healingMarker, j))
  {
    CleanedHasNoMarker(cfg, j, State([], false));
  }

  // ----- complete texts -----

  lemma {:induction false} CompleteIsNotFlagged(cfg: Config, j: Json, path: Path, found: bool)
    requires cfg.marker == "" && !HasMarker(cfg.healingMarker, j) && (j.Str? ==> path !in cfg.contentPaths)
    ensures var r := CleanAt(cfg, j, path, found); r.Ok? ==> r.value.found == found
    decreases j, 1
  {
    if path !in cfg.argsPaths && path !in cfg.contentPaths {
      match j
      case Obj(members) => CompleteMembersAreNotFlagged(cfg, members, [], path, found);
      case Arr(items) => CompleteItemsAreNotFlagged(cfg, items, [], path, found);
      case _ =>
    }
  }

  lemma {:induction false} CompleteMembersAreNotFlagged(cfg: Config, members: seq<Member>, obj: seq<Member>, path: Path, found: bool)
    requires cfg.marker == "" && !MembersHave(cfg.healingMarker, members)
    ensures var r := MembersAt(cfg, members, obj, path, found); r.Ok? ==> r.value.found == found
    decreases members, 0
  {
    if members != [] {
      var key, value := members[0].key, members[0].value;
      if value.Str? {
        CompleteMembersAreNotFlagged(cfg, members[1..], Put(obj, key, value), path, found);
      } else {
        CompleteIsNotFlagged(cfg, value, path + [key], found);
        var c := CleanAt(cfg, value, path + [key], found);
        if c.Ok? {
          CompleteMembersAreNotFlagged(cfg, members[1..], Put(obj, key, c.value.value), path, c.value.found);
        }
      }
    }
  }

  lemma {:induction false} CompleteItemsAreNotFlagged(cfg: Config, items: seq<Json>, arr: seq<Json>, path: Path, found: bool)
    requires cfg.marker == "" && !ItemsHave(cfg.healingMarker, items) && path !in cfg.contentPaths
    ensures var r := ItemsAt(cfg, items, arr, path, found); r.Ok? ==> r.value.found == found
    decreases items, 0
  {
    if items != [] {
      CompleteIsNotFlagged(cfg, items[0], path, found);
      var c := CleanAt(cfg, items[0], path, found);
      if c.Ok? {
        CompleteItemsAreNotFlagged(cfg, items[1..], arr + [c.value.value], path, c.value.found);
      }
    }
  }

  /** A complete string at the content path of the whole value: its empty marker "occurs" at its front. */
  predicate RootContent(cfg: Config, j: Json) {
    j.Str? && cfg.argsPaths != [] && [] !in cfg.argsPaths && [] in cfg.contentPaths
  }

  /** A complete value is reported as partial exactly in that case, and then its text is lost. */
  lemma CompleteIsPartialIff(cfg: Config, j: Json)
    requires cfg.marker == "" && !HasMarker(cfg.healingMarker, j) && Consume(cfg, j).Ok?
    ensures Consume(cfg, j).value.1 <==> RootContent(cfg, j)
    ensures RootContent(cfg, j) ==> Consume(cfg, j).value == (Str(""), true)
  {
    if RootContent(cfg, j) {
      assert j.s[0..0] == "";
      FindIs(j.s, "", 0, 0);
    } else if j.Str? {
    } else {
      NoMarkerLeavesNoKey(cfg.healingMarker, j);
      OnSpineIsTidy(cfg.healingMarker, j);
      TidyIsRight(cfg, j, State([], false));
      CompleteIsNotFlagged(cfg, j, [], false);
    }
  }
}
