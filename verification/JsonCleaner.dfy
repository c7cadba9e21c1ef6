/** Removing the healing of a truncated JSON value, and turning some of its parts into text
    (llama.cpp/common/chat-parser.cpp, try_consume_json_with_dumped_args). */
module JsonCleaner {
  import opened Wrappers
  import opened Text

  datatype Json =
    | Null
    | Bool(b: bool)
    | Number(text: string)
    | Str(s: string)
    | Arr(items: seq<Json>)
    | Obj(members: seq<Member>)

  datatype Member = Member(key: string, value: Json)

  type Path = seq<string>

  datatype CleanError = ContentIsNotAString

  /** The arguments of the call and what the parser knows: `marker` and `dumpMarker` are empty when the text was
      complete, `healingMarker` is what truncated text is healed with, and `dump` writes a value out. */
  datatype Config = Config(
    argsPaths: seq<Path>, contentPaths: seq<Path>, isPartial: bool,
    healingMarker: string, marker: string, dumpMarker: string, dump: Json -> string)

  predicate Contains(s: string, word: string) {
    Find(s, word, 0).Some?
  }

  // ----- the values computed at a leaf -----

  /** A value in an arguments path, as text cut at the marker, and whether it was cut. */
  function DumpedArguments(cfg: Config, j: Json): (string, bool) {
    var arguments := cfg.dump(j);
    if cfg.isPartial && cfg.marker != "" then
      var idx := Find(arguments, cfg.dumpMarker, 0);
      var cut := if idx.Some? then arguments[..idx.value] else arguments;
      (if cut == "\"" then "" else cut, idx.Some?)
    else (arguments, false)
  }

  /** A string in a content path, cut at the marker, and whether it was cut. */
  function CutContent(cfg: Config, s: string): (string, bool) {
    var idx := Find(s, cfg.marker, 0);
    if idx.Some? then (s[..idx.value], true) else (s, false)
  }

  /** `obj[key] = value` on an insertion-ordered object. */
  function Put(obj: seq<Member>, key: string, value: Json): (r: seq<Member>) {
    if obj == [] then [Member(key, value)]
    else if obj[0].key == key then [Member(key, value)] + obj[1..]
    else [obj[0]] + Put(obj[1..], key, value)
  }

  // ----- the cleaner with its shared path and flag -----

  datatype State = State(path: Path, found: bool)

  datatype Cleaned<T> = Cleaned(value: T, state: State)

  /** One call of the recursive closure, started with the path and flag it finds and leaving those it leaves. */
  function Clean(cfg: Config, j: Json, st: State): (r: Result<Cleaned<Json>, CleanError>)
    ensures if r.Ok? then st.path <= r.value.state.path else cfg.contentPaths != []
    decreases j, 1
  {
    if st.path in cfg.argsPaths then
      var (arguments, cut) := DumpedArguments(cfg, j);
      Ok(Cleaned(Str(arguments), st.(found := st.found || cut)))
    else if st.path in cfg.contentPaths then
      if !j.Str? then Err(ContentIsNotAString)
      else
        var (s, cut) := CutContent(cfg, j.s);
        Ok(Cleaned(Str(s), st.(found := st.found || cut)))
    else match j
      case Obj(members) =>
        var r := CleanMembers(cfg, members, [], st);
        if r.Err? then Err(r.error) else Ok(Cleaned(Obj(r.value.value), r.value.state))
      case Arr(items) =>
        var r := CleanItems(cfg, items, [], st);
        if r.Err? then Err(r.error) else Ok(Cleaned(Arr(r.value.value), r.value.state))
      case _ => Ok(Cleaned(j, st))
  }

  /** The loop over an object's members: two of its breaks leave the key on the path. */
  function CleanMembers(cfg: Config, members: seq<Member>, obj: seq<Member>, st: State)
    : (r: Result<Cleaned<seq<Member>>, CleanError>)
    ensures if r.Ok? then st.path <= r.value.state.path else cfg.contentPaths != []
    decreases members, 0
  {
    if members == [] then Ok(Cleaned(obj, st))
    else
      var key, value := members[0].key, members[0].value;
      if Contains(key, cfg.healingMarker) then Ok(Cleaned(obj, st.(found := true)))
      else
        var inside := st.(path := st.path + [key]);
        if value.Str? then
          if Contains(value.s, cfg.healingMarker) then
            var marked := inside.(found := true);
            if inside.path in cfg.contentPaths && cfg.marker == cfg.dumpMarker then
              var c := Clean(cfg, value, marked);
              if c.Err? then Err(c.error) else Ok(Cleaned(Put(obj, key, c.value.value), c.value.state))
            else Ok(Cleaned(obj, marked))
          else CleanMembers(cfg, members[1..], Put(obj, key, value), st)
        else
          var c := Clean(cfg, value, inside);
          if c.Err? then Err(c.error)
          else
            var path := c.value.state.path;
            CleanMembers(cfg, members[1..], Put(obj, key, c.value.value),
                         c.value.state.(path := path[..|path| - 1]))
  }

  function CleanItems(cfg: Config, items: seq<Json>, arr: seq<Json>, st: State)
    : (r: Result<Cleaned<seq<Json>>, CleanError>)
    ensures if r.Ok? then st.path <= r.value.state.path else cfg.contentPaths != []
    decreases items, 0
  {
    if items == [] then Ok(Cleaned(arr, st))
    else if items[0].Str? && Contains(items[0].s, cfg.healingMarker) then Ok(Cleaned(arr, st.(found := true)))
    else
      var c := Clean(cfg, items[0], st);
      if c.Err? then Err(c.error)
      else CleanItems(cfg, items[1..], arr + [c.value.value], c.value.state)
  }

  /** The whole call: a complete value may need no cleaning at all. */
  function Consume(cfg: Config, j: Json): Result<(Json, bool), CleanError> {
    if cfg.marker == "" && cfg.argsPaths == [] then Ok((j, false))
    else if cfg.marker == "" && [] in cfg.argsPaths then Ok((Str(cfg.dump(j)), false))
    else
      var c := Clean(cfg, j, State([], false));
      if c.Err? then Err(c.error) else Ok((c.value.value, c.value.state.found))
  }

  class Cleaner {
    const cfg: Config
    var path: Path
    var foundHealingMarker: bool

    constructor (cfg: Config)
      ensures this.cfg == cfg && path == [] && !foundHealingMarker
    {
      this.cfg := cfg;
      path, foundHealingMarker := [], false;
    }

    ghost function St(): State
      reads this
    {
      State(path, foundHealingMarker)
    }

    /** `try_consume_json_with_dumped_args`, from the point where the JSON has been parsed. */
    method ConsumeJsonWithDumpedArgs(j: Json) returns (r: Result<(Json, bool), CleanError>)
      requires path == [] && !foundHealingMarker
      modifies this
      ensures r == Consume(cfg, j)
    {
      if cfg.marker == "" {
        if cfg.argsPaths == [] {
          return Ok((j, false));
        }
        if [] in cfg.argsPaths {
          return Ok((Str(cfg.dump(j)), false));
        }
      }
      var cleaned := RemoveUnsupportedHealingsAndDumpArgs(j);
      if cleaned.Err? {
        return Err(cleaned.error);
      }
      return Ok((cleaned.value, foundHealingMarker));
    }

    /** The closure `remove_unsupported_healings_and_dump_args`, pushing to and popping from the shared path. */
    method RemoveUnsupportedHealingsAndDumpArgs(j: Json) returns (r: Result<Json, CleanError>)
      modifies this
      ensures var c := Clean(cfg, j, old(St()));
              if c.Err? then r == Err(c.error) else r == Ok(c.value.value) && St() == c.value.state
      decreases j, 1
    {
      if path in cfg.argsPaths {
        var arguments := cfg.dump(j);
        if cfg.isPartial && cfg.marker != "" {
          var idx := Find(arguments, cfg.dumpMarker, 0);
          if idx.Some? {
            arguments := arguments[..idx.value];
            foundHealingMarker := true;
          }
          if arguments == "\"" {
            arguments := "";
          }
        }
        return Ok(Str(arguments));
      }
      if path in cfg.contentPaths {
        if !j.Str? {
          return Err(ContentIsNotAString);
        }
        var str := j.s;
        var idx := Find(str, cfg.marker, 0);
        if idx.Some? {
          str := str[..idx.value];
          foundHealingMarker := true;
        }
        return Ok(Str(str));
      }
      match j
      case Obj(members) =>
        var obj := CleanObject(members);
        return if obj.Err? then Err(obj.error) else Ok(Obj(obj.value));
      case Arr(items) =>
        var arr := CleanArray(items);
        return if arr.Err? then Err(arr.error) else Ok(Arr(arr.value));
      case _ => return Ok(j);
    }

    /** The closure's loop over an object. */
    method CleanObject(members: seq<Member>) returns (r: Result<seq<Member>, CleanError>)
      modifies this
      ensures var c := CleanMembers(cfg, members, [], old(St()));
              if c.Err? then r == Err(c.error) else r == Ok(c.value.value) && St() == c.value.state
      decreases members, 0
    {
      var obj := [];
      var i := 0;
      while i < |members|
        invariant 0 <= i <= |members|
        invariant CleanMembers(cfg, members[i..], obj, St()) == CleanMembers(cfg, members, [], old(St()))
      {
        var key, value := members[i].key, members[i].value;
        ghost var rest := members[i..];
        assert rest[0] == members[i] && rest[1..] == members[i + 1..];
        ghost var st := St();
        if Find(key, cfg.healingMarker, 0).Some? {
          foundHealingMarker := true;
          return Ok(obj);
        }
        path := path + [key];
        if value.Str? {
          if Find(value.s, cfg.healingMarker, 0).Some? {
            foundHealingMarker := true;
            if path in cfg.contentPaths && cfg.marker == cfg.dumpMarker {
              var cleaned := RemoveUnsupportedHealingsAndDumpArgs(value);
              if cleaned.Err? {
                return Err(cleaned.error);
              }
              obj := Put(obj, key, cleaned.value);
            }
            return Ok(obj);
          }
          obj := Put(obj, key, value);
        } else {
          var cleaned := RemoveUnsupportedHealingsAndDumpArgs(value);
          if cleaned.Err? {
            return Err(cleaned.error);
          }
          obj := Put(obj, key, cleaned.value);
        }
        path := path[..|path| - 1];
        assert value.Str? ==> St() == st;
        i := i + 1;
      }
      return Ok(obj);
    }

    /** The closure's loop over an array. */
    method CleanArray(items: seq<Json>) returns (r: Result<seq<Json>, CleanError>)
      modifies this
      ensures var c := CleanItems(cfg, items, [], old(St()));
              if c.Err? then r == Err(c.error) else r == Ok(c.value.value) && St() == c.value.state
      decreases items, 0
    {
      var arr := [];
      var i := 0;
      while i < |items|
        invariant 0 <= i <= |items|
        invariant CleanItems(cfg, items[i..], arr, St()) == CleanItems(cfg, items, [], old(St()))
      {
        var value := items[i];
        ghost var rest := items[i..];
        assert rest[0] == value && rest[1..] == items[i + 1..];
        if value.Str? && Find(value.s, cfg.healingMarker, 0).Some? {
          foundHealingMarker := true;
          return Ok(arr);
        }
        var cleaned := RemoveUnsupportedHealingsAndDumpArgs(value);
        if cleaned.Err? {
          return Err(cleaned.error);
        }
        arr := arr + [cleaned.value];
        i := i + 1;
      }
      return Ok(arr);
    }
  }
}
