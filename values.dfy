/** Raw values as the validation hooks see them, before the structural parse.

    The hooks receive untyped Python data: JSON scalars, lists and dicts, or
    objects that an earlier stage already built (a `ResourceLocation`, a
    validated `Recipe`, a pattern from the registry).  `Value` is that union.
 */
module Values {

  datatype Option<+T> = None | Some(value: T)

  datatype Result<+T> = Ok(value: T) | Err(error: Error)

  /** A `namespace:path` resource identifier, already parsed. */
  datatype ResLoc = ResLoc(namespace: string, path: string)

  /** A pattern definition held by the registry; its fields are not part of this model. */
  type PatternInfo(==)

  /** A validated recipe record: its `id` and optional `group`. */
  datatype Recipe = Recipe(id: ResLoc, group: Option<string>)

  datatype Value =
    | Null
    | Bool(b: bool)
    | Num(n: int)
    | Str(s: string)
    | List(items: seq<Value>)
    | Dict(fields: map<string, Value>)
    | Loc(loc: ResLoc)
    | RecipeObj(recipe: Recipe)
    | PatternObj(pattern: PatternInfo)

  /** The part of the book properties the hooks read. */
  datatype Props = Props(recipeDirs: seq<string>, defaultRecipeDir: string)

  /** The validation context: the properties and the pattern registry. */
  datatype Context = Context(props: Props, patterns: map<ResLoc, PatternInfo>)

  /** `ResourceLocation.from_str`: an uninterpreted parser that may reject its input. */
  type Parser = Value -> Option<ResLoc>

  /** The failures the hooks raise. */
  datatype Error =
    | MalformedId(raw: Value)               // from_str rejected the raw value
    | UnboundId                             // the input was none of the kinds the hook matches
    | FileNotFound(path: string)            // load_json_dict on a file that does not exist
    | MalformedJson(path: string)           // load_json_dict on a file that is not a JSON object
    | MissingRecipe(id: ResLoc, path: string)
    | NotSubscriptable(raw: Value)          // `values[key]` on something that is not a dict
    | MissingKey(key: string)
    | UnknownPattern(op: ResLoc)

  /** Python's `a | b` on dicts: every key of either, and `b` wins where both have one. */
  function Merge(a: map<string, Value>, b: map<string, Value>): (r: map<string, Value>)
    ensures r.Keys == a.Keys + b.Keys
    ensures forall k :: k in b ==> r[k] == b[k]
    ensures forall k :: k in a && k !in b ==> r[k] == a[k]
  {
    a + b
  }
}
