/** The recipe reference loader (`Recipe._pre_root`).

    A recipe may be written in a book as a bare id.  Before validation, with a
    context present, the id is resolved against the configured recipe
    directories: the default directory supplies the record's fields, and
    every other directory must at least hold a file of the same name.
 */
module Recipes {
  import opened Values

  /** Files on disk: a path that is a key exists; `None` marks a file that
      `load_json_dict` rejects (not JSON, or not a JSON object). */
  type FileSystem = map<string, Option<map<string, Value>>>

  /** `recipe_dir / f"{id.path}.json"`: only the id's path is used. */
  function RecipePath(dir: string, id: ResLoc): string
  {
    dir + "/" + id.path + ".json"
  }

  /** `load_json_dict(path)`. */
  function LoadJsonDict(fs: FileSystem, path: string): (r: Result<map<string, Value>>)
    ensures r.Ok? <==> path in fs && fs[path].Some?
    ensures r.Ok? ==> r.value == fs[path].value
  {
    if path !in fs then Err(FileNotFound(path))
    else if fs[path].None? then Err(MalformedJson(path))
    else Ok(fs[path].value)
  }

  /** The record built from the default directory's file: its fields, with `id` set. */
  function Loaded(json: map<string, Value>, id: ResLoc): Value
  {
    Dict(Merge(json, map["id" := Loc(id)]))
  }

  /** What one directory of the walk does: `None` when it passes, or the error it raises. */
  function StepError(fs: FileSystem, default: string, id: ResLoc, dir: string): Option<Error>
  {
    var path := RecipePath(dir, id);
    if dir == default then
      (match LoadJsonDict(fs, path)
       case Ok(_) => None
       case Err(e) => Some(e))
    else if path !in fs then Some(MissingRecipe(id, path))
    else None
  }

  /** The `values` after one directory that passed: the default directory's record, or unchanged. */
  function Next(fs: FileSystem, default: string, id: ResLoc, dir: string, values: Value): Value
  {
    var loaded := LoadJsonDict(fs, RecipePath(dir, id));
    if dir == default && loaded.Ok? then Loaded(loaded.value, id) else values
  }

  /** The loop over `recipe_dirs`, in order, starting from the current `values`. */
  function Walk(dirs: seq<string>, default: string, fs: FileSystem, id: ResLoc, values: Value): Result<Value>
    decreases |dirs|
  {
    if dirs == [] then Ok(values)
    else if StepError(fs, default, id, dirs[0]).Some? then Err(StepError(fs, default, id, dirs[0]).value)
    else Walk(dirs[1..], default, fs, id, Next(fs, default, id, dirs[0], values))
  }

  /** The whole hook, as a function of its input, the context, the parser and the files. */
  function PreRootSpec(values: Value, context: Option<Context>, fromStr: Parser, fs: FileSystem): Result<Value>
  {
    if context.None? || values.Dict? || values.RecipeObj? then Ok(values)
    else
      var props := context.value.props;
      match values
      case Str(_) =>
        (match fromStr(values)
         case None => Err(MalformedId(values))
         case Some(id) => Walk(props.recipeDirs, props.defaultRecipeDir, fs, id, values))
      case Loc(id) => Walk(props.recipeDirs, props.defaultRecipeDir, fs, id, values)
      case _ => if props.recipeDirs == [] then Ok(values) else Err(UnboundId)
  }

  /** `Recipe._pre_root`. */
  method PreRoot(values: Value, context: Option<Context>, fromStr: Parser, fs: FileSystem)
    returns (r: Result<Value>)
    ensures r == PreRootSpec(values, context, fromStr, fs)
    ensures context.None? ==> r == Ok(values)
    ensures values.Dict? || values.RecipeObj? ==> r == Ok(values)
    ensures context.Some? && !(values.Str? || values.Loc? || values.Dict? || values.RecipeObj?) ==>
      r == if context.value.props.recipeDirs == [] then Ok(values) else Err(UnboundId)
  {
    if context.None? || values.Dict? || values.RecipeObj? {
      return Ok(values);
    }

    // the id stays unbound when the input is neither a string nor a ResourceLocation
    var id: Option<ResLoc> := None;
    match values {
      case Str(_) =>
        var parsed := fromStr(values);
        if parsed.None? {
          return Err(MalformedId(values));
        }
        id := parsed;
      case Loc(l) =>
        id := Some(l);
      case _ =>
    }

    var dirs := context.value.props.recipeDirs;
    var default := context.value.props.defaultRecipeDir;
    ghost var spec := PreRootSpec(values, context, fromStr, fs);
    var current := values;
    var i := 0;
    while i < |dirs|
      invariant 0 <= i <= |dirs|
      invariant id.None? ==> i == 0 && current == values
      invariant id.Some? ==> spec == Walk(dirs[i..], default, fs, id.value, current)
    {
      if id.None? {
        return Err(UnboundId);
      }
      var dir := dirs[i];
      var path := RecipePath(dir, id.value);
      if dir == default {
        var loaded := LoadJsonDict(fs, path);
        if loaded.Err? {
          return Err(loaded.error);
        }
        current := Dict(Merge(loaded.value, map["id" := Loc(id.value)]));
      } else if path !in fs {
        return Err(MissingRecipe(id.value, path));
      }
      i := i + 1;
    }
    return Ok(current);
  }

  // ---------------------------------------------------------------------------
  // What the walk does, stated without reference to its recursion

  /** Every directory passes its check. */
  predicate AllPass(dirs: seq<string>, default: string, fs: FileSystem, id: ResLoc)
  {
    forall j :: 0 <= j < |dirs| ==> StepError(fs, default, id, dirs[j]).None?
  }

  /** The walk succeeds exactly when every non-default directory holds the file
      and, if the default directory is listed, its file loads as a JSON object. */
  lemma {:induction false} WalkOkIff(dirs: seq<string>, default: string, fs: FileSystem, id: ResLoc, values: Value)
    ensures Walk(dirs, default, fs, id, values).Ok? <==>
      (forall j :: 0 <= j < |dirs| && dirs[j] != default ==> RecipePath(dirs[j], id) in fs) &&
      (default in dirs ==> RecipePath(default, id) in fs && fs[RecipePath(default, id)].Some?)
    decreases |dirs|
  {
    if dirs != [] {
      WalkOkIff(dirs[1..], default, fs, id, Next(fs, default, id, dirs[0], values));
      assert dirs == [dirs[0]] + dirs[1..];
      assert forall j :: 0 < j < |dirs| ==> dirs[j] == dirs[1..][j - 1];
    }
  }

  /** On success the result is the default directory's record with `id` set
      (overriding any `id` in the file), or the input unchanged when the
      default directory is not listed. */
  lemma {:induction false} WalkValue(dirs: seq<string>, default: string, fs: FileSystem, id: ResLoc, values: Value)
    requires Walk(dirs, default, fs, id, values).Ok?
    ensures default in dirs ==>
      RecipePath(default, id) in fs && fs[RecipePath(default, id)].Some? &&
      Walk(dirs, default, fs, id, values).value == Loaded(fs[RecipePath(default, id)].value, id)
    ensures default !in dirs ==> Walk(dirs, default, fs, id, values).value == values
    decreases |dirs|
  {
    if dirs != [] {
      WalkValue(dirs[1..], default, fs, id, Next(fs, default, id, dirs[0], values));
      if dirs[0] != default {
        assert default in dirs ==> default in dirs[1..];
      }
    }
  }

  /** The loaded record's `id` is the requested id, and every other key is the file's. */
  lemma LoadedFields(json: map<string, Value>, id: ResLoc)
    ensures Loaded(json, id).fields.Keys == json.Keys + {"id"}
    ensures Loaded(json, id).fields["id"] == Loc(id)
    ensures forall k :: k in json && k != "id" ==> Loaded(json, id).fields[k] == json[k]
  {
  }

  /** The walk fails with exactly the error of the first directory that fails its check. */
  lemma {:induction false} WalkFirstError(dirs: seq<string>, default: string, fs: FileSystem, id: ResLoc, values: Value, e: Error)
    ensures Walk(dirs, default, fs, id, values) == Err(e) <==>
      exists k :: 0 <= k < |dirs| && AllPass(dirs[..k], default, fs, id) &&
        StepError(fs, default, id, dirs[k]) == Some(e)
    decreases |dirs|
  {
    if dirs != [] {
      var rest := dirs[1..];
      WalkFirstError(rest, default, fs, id, Next(fs, default, id, dirs[0], values), e);
      forall k | 0 < k < |dirs|
        ensures AllPass(dirs[..k], default, fs, id) <==>
          StepError(fs, default, id, dirs[0]).None? && AllPass(rest[..k - 1], default, fs, id)
        ensures dirs[k] == rest[k - 1]
      {
        AllPassPrefix(dirs, default, fs, id, k);
      }
      assert AllPass(dirs[..0], default, fs, id);
      if StepError(fs, default, id, dirs[0]).None? {
        if exists k :: 0 <= k < |rest| && AllPass(rest[..k], default, fs, id) &&
            StepError(fs, default, id, rest[k]) == Some(e) {
          var k :| 0 <= k < |rest| && AllPass(rest[..k], default, fs, id) &&
            StepError(fs, default, id, rest[k]) == Some(e);
          assert AllPass(dirs[..k + 1], default, fs, id) && StepError(fs, default, id, dirs[k + 1]) == Some(e);
        }
      }
    }
  }

  /** A prefix of the walk passes when its first directory and the rest of it pass. */
  lemma AllPassPrefix(dirs: seq<string>, default: string, fs: FileSystem, id: ResLoc, k: nat)
    requires 0 < k <= |dirs|
    ensures AllPass(dirs[..k], default, fs, id) <==>
      StepError(fs, default, id, dirs[0]).None? && AllPass(dirs[1..][..k - 1], default, fs, id)
  {
    var p, q := dirs[..k], dirs[1..][..k - 1];
    assert |p| == |q| + 1 && p[0] == dirs[0];
    assert forall j :: 0 < j < |p| ==> p[j] == q[j - 1];
    assert forall j :: 0 <= j < |q| ==> q[j] == p[j + 1];
  }

  /** A non-default directory without the file makes the walk fail, whether it
      comes before or after the default directory; when every earlier
      directory passed, the error names the id and that directory's path. */
  lemma MissingStubFails(dirs: seq<string>, default: string, fs: FileSystem, id: ResLoc, values: Value, k: nat)
    requires k < |dirs| && dirs[k] != default && RecipePath(dirs[k], id) !in fs
    ensures Walk(dirs, default, fs, id, values).Err?
    ensures AllPass(dirs[..k], default, fs, id) ==>
      Walk(dirs, default, fs, id, values) == Err(MissingRecipe(id, RecipePath(dirs[k], id)))
  {
    WalkOkIff(dirs, default, fs, id, values);
    WalkFirstError(dirs, default, fs, id, values, MissingRecipe(id, RecipePath(dirs[k], id)));
  }

  /** Non-default directories are checked for existence only: two file systems
      with the same files and the same default-directory record give the same outcome. */
  lemma {:induction false} StubContentsIgnored(dirs: seq<string>, default: string, fs1: FileSystem, fs2: FileSystem, id: ResLoc, values: Value)
    requires fs1.Keys == fs2.Keys
    requires RecipePath(default, id) in fs1 ==> fs1[RecipePath(default, id)] == fs2[RecipePath(default, id)]
    ensures Walk(dirs, default, fs1, id, values) == Walk(dirs, default, fs2, id, values)
    decreases |dirs|
  {
    if dirs != [] {
      StubContentsIgnored(dirs[1..], default, fs1, fs2, id, Next(fs1, default, id, dirs[0], values));
    }
  }

  /** The record with its `id` key removed; other values as they are. */
  function WithoutId(v: Value): Value
  {
    if v.Dict? then Dict(v.fields - {"id"}) else v
  }

  /** Two ids that differ only in namespace resolve to the same files: the walk
      succeeds for both or for neither, and the results agree apart from `id`. */
  lemma {:induction false} NamespaceIgnored(dirs: seq<string>, default: string, fs: FileSystem, id1: ResLoc, id2: ResLoc, values: Value)
    requires id1.path == id2.path
    ensures Walk(dirs, default, fs, id1, values).Ok? <==> Walk(dirs, default, fs, id2, values).Ok?
    ensures Walk(dirs, default, fs, id1, values).Ok? ==>
      WithoutId(Walk(dirs, default, fs, id1, values).value) == WithoutId(Walk(dirs, default, fs, id2, values).value)
  {
    assert forall d :: RecipePath(d, id1) == RecipePath(d, id2);
    WalkOkIff(dirs, default, fs, id1, values);
    WalkOkIff(dirs, default, fs, id2, values);
    if Walk(dirs, default, fs, id1, values).Ok? {
      WalkValue(dirs, default, fs, id1, values);
      WalkValue(dirs, default, fs, id2, values);
      var path := RecipePath(default, id1);
      if default in dirs {
        var json := fs[path].value;
        assert Loaded(json, id1).fields - {"id"} == Loaded(json, id2).fields - {"id"};
      }
    }
  }

  // ---------------------------------------------------------------------------
  // The hook as a whole

  /** A string is parsed with `from_str` and a ResourceLocation is used as the
      id; either way the outcome is the walk for that id, from the raw input. */
  lemma IdResolution(values: Value, context: Context, fromStr: Parser, fs: FileSystem)
    requires values.Str? || values.Loc?
    ensures values.Str? && fromStr(values).None? ==>
      PreRootSpec(values, Some(context), fromStr, fs) == Err(MalformedId(values))
    ensures values.Str? && fromStr(values).Some? ==>
      PreRootSpec(values, Some(context), fromStr, fs) ==
      Walk(context.props.recipeDirs, context.props.defaultRecipeDir, fs, fromStr(values).value, values)
    ensures values.Loc? ==>
      PreRootSpec(values, Some(context), fromStr, fs) ==
      Walk(context.props.recipeDirs, context.props.defaultRecipeDir, fs, values.loc, values)
  {
  }

  /** With the default directory listed, a resolved reference becomes the
      default file's record with `id` set to the resolved id. */
  lemma ResolvedRecord(values: Value, id: ResLoc, context: Context, fromStr: Parser, fs: FileSystem)
    requires values == Loc(id) || (values.Str? && fromStr(values) == Some(id))
    requires context.props.defaultRecipeDir in context.props.recipeDirs
    requires PreRootSpec(values, Some(context), fromStr, fs).Ok?
    ensures var path := RecipePath(context.props.defaultRecipeDir, id);
      path in fs && fs[path].Some? &&
      PreRootSpec(values, Some(context), fromStr, fs).value == Loaded(fs[path].value, id)
  {
    WalkValue(context.props.recipeDirs, context.props.defaultRecipeDir, fs, id, values);
  }

  /** Without the default directory, a reference whose stubs all exist is returned unchanged. */
  lemma UnresolvedWithoutDefault(values: Value, context: Context, fromStr: Parser, fs: FileSystem)
    requires values.Str? || values.Loc?
    requires context.props.defaultRecipeDir !in context.props.recipeDirs
    requires PreRootSpec(values, Some(context), fromStr, fs).Ok?
    ensures PreRootSpec(values, Some(context), fromStr, fs) == Ok(values)
  {
    var id := if values.Loc? then values.loc else fromStr(values).value;
    WalkValue(context.props.recipeDirs, context.props.defaultRecipeDir, fs, id, values);
  }
}
