# hexdoc validation hooks, modelled in Dafny

hexdoc builds the Hex Casting patchouli book. It validates JSON resources into typed page and
recipe models and then renders them. This project models three pieces of that pipeline:

- **The recipe reference loader** (`Recipe._pre_root`). Before a recipe is validated, a bare
  recipe id (a string or a `ResourceLocation`) is expanded into a full record. This only
  happens when a validation context is present. The loader walks the configured recipe
  directories in order. The default directory's `<path>.json` supplies the record's fields,
  with `id` set to the resolved id. Every other directory must hold a file of the same name,
  or the loader fails with an error naming the id and the path.
- **The pattern lookup hook** of the `hexcasting:pattern` page
  (`LookupPatternPage._pre_root_lookup`). With a context present, it parses `op_id`, looks
  the pattern up in the context's registry, and merges `op_id` and a one-element `patterns`
  list into the raw input. The merge is right-biased, like Python's dict `|`. The same file
  also declares a table of page variants, each with a tag and a template. This table is
  modelled as data.
- **`strip_empty_lines`**. It drops the empty and whitespace-only lines of a text and joins
  the remaining lines with single newlines.

Files:

- `values.dfy` (module `Values`): the raw values a hook receives, the parsed resource id,
  the context, the errors, and the dict merge.
- `recipes.dfy` (module `Recipes`): the loader. It is an imperative method with a loop over
  the directories, proved equal to the recursive function `Walk`. Lemmas state what `Walk`
  computes.
- `hex_pages.dfy` (module `HexPages`): the lookup hook as a function, and the page variant
  table.
- `hexdoc_text.dfy` (module `HexdocText`): line splitting, filtering and joining, with
  their round-trip, order and idempotence lemmas.

Abstractions:

- **Parsing ids.** `ResourceLocation.from_str` is a parameter of type `Value -> Option<ResLoc>`.
  It is uninterpreted and may reject its input. Its grammar is not part of this model.
- **Reading files.** The file system is a map from path to `Option<map<string, Value>>`. A
  path that is a key exists. A `None` value marks a file that `load_json_dict` rejects. A
  recipe file's path is `dir + "/" + id.path + ".json"`.
- **The context.** It is `Option<Context>`. `None` stands for every context that Python
  treats as false: no context at all, or an empty one.

## Model

| member | source | states |
|---|---|---|
| `Values.Merge` | doc/src/hexcasting/hex_pages.py:30-33 | Python's dict `a \| b`. The result has the keys of both. Keys of `b` take `b`'s value, and the other keys keep `a`'s value. |
| `Recipes.LoadJsonDict` | doc/src/hexdoc/minecraft/recipe/abstract_recipes.py:38 | Loading succeeds exactly when the file exists and holds a JSON object, and then it yields that object. |
| `Recipes.PreRoot` | doc/src/hexdoc/minecraft/recipe/abstract_recipes.py:14-44 | The hook, including its loop over `recipe_dirs`, returns exactly `PreRootSpec` (and so `Walk`). With no context it returns its input unchanged, whatever its kind. A dict or a `Recipe` is returned unchanged even with a context. Any other kind of input leaves the id unbound. It then fails with `UnboundId` as soon as there is a directory to walk, and is returned unchanged when there is none. |
| `Recipes.IdResolution` | doc/src/hexdoc/minecraft/recipe/abstract_recipes.py:25-29 | A string is parsed with `from_str`, and a rejected string fails with `MalformedId`. A `ResourceLocation` is used as the id directly. Either way the outcome is the directory walk for that id. |
| `Recipes.WalkOkIff` | doc/src/hexdoc/minecraft/recipe/abstract_recipes.py:33-42 | The walk succeeds if and only if two things hold. Every non-default directory holds `<dir>/<id.path>.json`. And if the default directory is listed, its file exists and is a JSON object. |
| `Recipes.WalkFirstError` | doc/src/hexdoc/minecraft/recipe/abstract_recipes.py:33-42 | The walk fails with error `e` if and only if some directory fails its check with `e` and every directory before it passed. So the first failing directory, in list order, decides the error. |
| `Recipes.MissingStubFails` | doc/src/hexdoc/minecraft/recipe/abstract_recipes.py:39-42 | A non-default directory that lacks the file makes the walk fail, whether it comes before or after the default directory. If every earlier directory passed, the error is `MissingRecipe(id, path)` for that directory. |
| `Recipes.WalkValue` | doc/src/hexdoc/minecraft/recipe/abstract_recipes.py:33-44 | On success, if the default directory is listed, the result is that directory's JSON object merged with `{"id": id}`. Otherwise the result is the input, unchanged. |
| `Recipes.LoadedFields` | doc/src/hexdoc/minecraft/recipe/abstract_recipes.py:38 | The loaded record has the file's keys plus `id`. Its `id` is the resolved id, even when the file has its own `id`. Every other key keeps the file's value. |
| `Recipes.ResolvedRecord` | doc/src/hexdoc/minecraft/recipe/abstract_recipes.py:36-38 | Suppose the default directory is listed and the hook succeeds on a string or id input. Then the default file exists, and the result is its object with `id` set to the resolved id. |
| `Recipes.UnresolvedWithoutDefault` | doc/src/hexdoc/minecraft/recipe/abstract_recipes.py:33-44 | When the default directory is not listed and every existence check passes, the original string or id is returned unchanged. |
| `Recipes.StubContentsIgnored` | doc/src/hexdoc/minecraft/recipe/abstract_recipes.py:36-42 | Non-default directories are checked for existence only. Two file systems with the same set of files and the same default-directory entry give the same outcome. |
| `Recipes.NamespaceIgnored` | doc/src/hexdoc/minecraft/recipe/abstract_recipes.py:34-35 | Two ids that differ only in namespace either both succeed or both fail. When they succeed, the results agree on every key except `id`. |
| `HexPages.PreRootLookup` | doc/src/hexcasting/hex_pages.py:21-33 | With no context, the input is returned unchanged. With a context, the hook succeeds if and only if the input is a dict with an `op_id` that parses to an id in the registry. On success, `op_id` becomes the parsed id and `patterns` is exactly the one-element list holding the registered pattern. Every other key keeps its value, and no other key is added. |
| `HexPages.LookupErrors` | doc/src/hexcasting/hex_pages.py:28-29 | Each failure raises its own error. A non-dict input raises `NotSubscriptable`. A missing `op_id` raises `MissingKey("op_id")`. An `op_id` that `from_str` rejects raises `MalformedId`. A parsed id that the registry lacks raises `UnknownPattern(id)`. |
| `HexPages.LookupOverwritesPatterns` | doc/src/hexcasting/hex_pages.py:30-33 | A `patterns` entry already in the input is overwritten. The result is the same whether or not the input had one, whatever its value. |
| `HexPages.AllVariantsComplete` | doc/src/hexcasting/hex_pages.py:17-67 | The variant table lists each of the six page classes exactly once. |
| `HexPages.SharedManualPatternTag` | doc/src/hexcasting/hex_pages.py:38-46 | Two distinct variants share a tag if and only if they are `ManualOpPatternPage` and `ManualRawPatternPage`. Both declare `hexcasting:manual_pattern`. |
| `HexPages.TagResolution` | doc/src/hexcasting/hex_pages.py:19-66 | The tag `hexcasting:manual_pattern` names exactly the two manual op and raw variants. Every other tag names at most one variant. |
| `HexPages.ManualPatternTemplates` | doc/src/hexcasting/hex_pages.py:39-55 | The three manual-pattern variants, and only they, declare the template `PageWithPattern`. No variant declares any other template. |
| `HexPages.NosigHasNoSignature` | doc/src/hexcasting/hex_pages.py:52-58 | Only `ManualPatternNosigPage` pins any fields to `None`, and the fields it pins are `input` and `output`. It extends the same base as `ManualRawPatternPage`. |
| `HexdocText.SplitLines` | doc/src/hexdoc/hexdoc.py:29 | `splitlines` never yields a line that contains a newline. |
| `HexdocText.SplitJoin` | doc/src/hexdoc/hexdoc.py:29 | Take lines that are non-empty and free of newlines. Joining them with `"\n"` and splitting again gives the same lines back. |
| `HexdocText.JoinSplit` | doc/src/hexdoc/hexdoc.py:29 | Splitting a text into lines and joining them with `"\n"` gives the text back, minus one final newline if it had one. |
| `HexdocText.JoinShape` | doc/src/hexdoc/hexdoc.py:29 | Joining non-empty lines free of newlines gives text that is empty only when there are no lines. The text neither starts nor ends with a newline, and never holds two newlines in a row. |
| `HexdocText.NonBlankAppend` | doc/src/hexdoc/hexdoc.py:29 | Filtering distributes over concatenation. So kept lines keep their relative order. |
| `HexdocText.NonBlankMembers` | doc/src/hexdoc/hexdoc.py:29 | A line is kept if and only if it occurs in the input and is not blank. No kept line is blank. |
| `HexdocText.NonBlankKeepsAll` | doc/src/hexdoc/hexdoc.py:29 | Filtering lines that are all non-blank changes nothing. |
| `HexdocText.NonBlankEmpty` | doc/src/hexdoc/hexdoc.py:29 | The filter keeps no line if and only if every line is blank. |
| `HexdocText.OutputLines` | doc/src/hexdoc/hexdoc.py:28-29 | The output's lines are exactly the input's non-blank lines, in order and verbatim. They are not trimmed. |
| `HexdocText.NoEmptyLines` | doc/src/hexdoc/hexdoc.py:28-29 | The output contains no empty or whitespace-only line. It has no leading or trailing newline, and its lines are separated by single newlines. |
| `HexdocText.EmptyOutput` | doc/src/hexdoc/hexdoc.py:28-29 | The output is the empty string if and only if every input line is blank, which includes empty input. |
| `HexdocText.Idempotent` | doc/src/hexdoc/hexdoc.py:28-29 | Applying `strip_empty_lines` twice gives the same text as applying it once. |

## Left out

- `main` and `Args` in `doc/src/hexdoc/hexdoc.py` are not modelled. They cover argument parsing, reading the environment, changing directory, setting up logging, the Jinja environment, template rendering and writing the output file. All of that is I/O around a foreign library.
- `doc/src/hexdoc/utils/__init__.py` only re-exports names, so there is nothing to model.
- The tagged-union resolver, `ResourceLocation.from_str` and `load_json_dict` are not part of this model. `from_str` is an uninterpreted parameter that may fail. `load_json_dict` is a lookup in the abstract file system. The page table records which variants share a tag, but not how the resolver chooses between them.
- Pydantic's machinery is not modelled: `model_validator`, `ValidationInfo`, field coercion, and the structural validation that follows each hook. Each hook is a function of an optional context and a raw value.
- The real file system is not modelled. Path existence and JSON reading become lookups in a map. Directories and paths are plain strings: the default-directory test is string equality, and joining is concatenation with `/`. So `pathlib`'s normalisation is not captured: trailing or doubled separators, `.` segments (`Path(".") / "x.json"` is `x.json`, the model gives `./x.json`), letter case on Windows, and an absolute `id.path` that replaces the directory. Nor is the operating system resolving `..` or symbolic links when it checks or reads a file.
- `HexdocText.SplitLines` treats only `'\n'` as a line break. Python's `splitlines` also breaks on `\r`, `\r\n`, `\v`, `\f`, `\x1c`-`\x1e`, `\x85`, U+2028 and U+2029. The `strip()` test uses Python's full `str.isspace` character set.
- JSON numbers are integers in `Value`; floating point is not modelled.
- The pattern definitions in the registry are an opaque type, because their fields play no part in either hook.
