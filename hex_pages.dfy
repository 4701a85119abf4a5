/** Hex Casting's own page kinds: the pattern lookup hook of the
    `hexcasting:pattern` page, and the tag and template each page variant
    declares.
 */
module HexPages {
  import opened Values

  /** The `op_id` and `patterns` entries the lookup writes. */
  function LookupEntries(op: ResLoc, pattern: PatternInfo): map<string, Value>
  {
    map["op_id" := Loc(op), "patterns" := List([PatternObj(pattern)])]
  }

  /** `LookupPatternPage._pre_root_lookup`: with a context, parse `op_id`,
      look the pattern up in the registry, and merge both into the input. */
  function PreRootLookup(values: Value, context: Option<Context>, fromStr: Parser): (r: Result<Value>)
    ensures context.None? ==> r == Ok(values)
    ensures context.Some? ==>
      (r.Ok? <==>
        values.Dict? && "op_id" in values.fields &&
        fromStr(values.fields["op_id"]).Some? &&
        fromStr(values.fields["op_id"]).value in context.value.patterns)
    ensures context.Some? && r.Ok? ==>
      var op := fromStr(values.fields["op_id"]).value;
      r.value.Dict? &&
      r.value.fields.Keys == values.fields.Keys + {"patterns"} &&
      r.value.fields["op_id"] == Loc(op) &&
      r.value.fields["patterns"] == List([PatternObj(context.value.patterns[op])]) &&
      forall k :: k in values.fields && k != "op_id" && k != "patterns" ==> r.value.fields[k] == values.fields[k]
  {
    if context.None? then Ok(values)
    else if !values.Dict? then Err(NotSubscriptable(values))
    else if "op_id" !in values.fields then Err(MissingKey("op_id"))
    else
      match fromStr(values.fields["op_id"])
      case None => Err(MalformedId(values.fields["op_id"]))
      case Some(op) =>
        if op !in context.value.patterns then Err(UnknownPattern(op))
        else Ok(Dict(Merge(values.fields, LookupEntries(op, context.value.patterns[op]))))
  }

  /** Which error a failed lookup raises: indexing a non-dict, a missing
      `op_id`, an id `from_str` rejects, or an id the registry lacks. */
  lemma LookupErrors(values: Value, context: Context, fromStr: Parser)
    ensures !values.Dict? ==> PreRootLookup(values, Some(context), fromStr) == Err(NotSubscriptable(values))
    ensures values.Dict? && "op_id" !in values.fields ==>
      PreRootLookup(values, Some(context), fromStr) == Err(MissingKey("op_id"))
    ensures values.Dict? && "op_id" in values.fields && fromStr(values.fields["op_id"]).None? ==>
      PreRootLookup(values, Some(context), fromStr) == Err(MalformedId(values.fields["op_id"]))
    ensures (values.Dict? && "op_id" in values.fields && fromStr(values.fields["op_id"]).Some? &&
             fromStr(values.fields["op_id"]).value !in context.patterns) ==>
      PreRootLookup(values, Some(context), fromStr) == Err(UnknownPattern(fromStr(values.fields["op_id"]).value))
  {
  }

  /** The lookup is a right-biased merge: an existing `patterns` entry is
      replaced, and the outcome depends on the input only through `op_id`
      for the entries it writes. */
  lemma LookupOverwritesPatterns(fields: map<string, Value>, context: Context, fromStr: Parser, old_patterns: Value)
    requires "op_id" in fields
    requires fromStr(fields["op_id"]).Some? && fromStr(fields["op_id"]).value in context.patterns
    ensures var with := PreRootLookup(Dict(fields["patterns" := old_patterns]), Some(context), fromStr);
      var without := PreRootLookup(Dict(fields - {"patterns"}), Some(context), fromStr);
      with.Ok? && without.Ok? && with == without
  {
    var op := fromStr(fields["op_id"]).value;
    var entries := LookupEntries(op, context.patterns[op]);
    assert Merge(fields["patterns" := old_patterns], entries) == Merge(fields - {"patterns"}, entries);
  }

  // ---------------------------------------------------------------------------
  // The page variants declared next to the hook

  datatype PageVariant =
    | LookupPatternPage
    | ManualOpPatternPage
    | ManualRawPatternPage
    | ManualPatternNosigPage
    | CraftingMultiPage
    | BrainsweepPage

  /** The base class each variant extends. */
  datatype PageBase = PageWithOpPattern | PageWithPattern | PageWithTitle | PageWithText

  const AllVariants: seq<PageVariant> := [LookupPatternPage, ManualOpPatternPage, ManualRawPatternPage,
                                          ManualPatternNosigPage, CraftingMultiPage, BrainsweepPage]

  /** The `type=` tag a variant registers under. */
  function Tag(v: PageVariant): string
  {
    match v
    case LookupPatternPage => "hexcasting:pattern"
    case ManualOpPatternPage => "hexcasting:manual_pattern"
    case ManualRawPatternPage => "hexcasting:manual_pattern"
    case ManualPatternNosigPage => "hexcasting:manual_pattern_nosig"
    case CraftingMultiPage => "hexcasting:crafting_multi"
    case BrainsweepPage => "hexcasting:brainsweep"
  }

  /** The `template_name=` a variant declares, if it declares one. */
  function TemplateName(v: PageVariant): Option<string>
  {
    match v
    case ManualOpPatternPage => Some("PageWithPattern")
    case ManualRawPatternPage => Some("PageWithPattern")
    case ManualPatternNosigPage => Some("PageWithPattern")
    case _ => None
  }

  function Base(v: PageVariant): PageBase
  {
    match v
    case LookupPatternPage => PageWithOpPattern
    case ManualOpPatternPage => PageWithOpPattern
    case ManualRawPatternPage => PageWithPattern
    case ManualPatternNosigPage => PageWithPattern
    case CraftingMultiPage => PageWithTitle
    case BrainsweepPage => PageWithText
  }

  /** The inherited fields a variant pins to `None`. */
  function FieldsFixedToNone(v: PageVariant): set<string>
  {
    if v == ManualPatternNosigPage then {"input", "output"} else {}
  }

  /** The variants registered under a tag. */
  function VariantsTagged(t: string): set<PageVariant>
  {
    set v | v in AllVariants && Tag(v) == t
  }

  /** The table lists every variant, once. */
  lemma AllVariantsComplete(v: PageVariant)
    ensures v in AllVariants
    ensures forall i, j :: 0 <= i < j < |AllVariants| ==> AllVariants[i] != AllVariants[j]
  {
  }

  /** Two distinct variants share a tag exactly when they are the manual op
      and manual raw pattern pages, which both declare `hexcasting:manual_pattern`. */
  lemma SharedManualPatternTag(v: PageVariant, w: PageVariant)
    requires v != w
    ensures Tag(v) == Tag(w) <==> {v, w} == {ManualOpPatternPage, ManualRawPatternPage}
    ensures Tag(ManualOpPatternPage) == Tag(ManualRawPatternPage) == "hexcasting:manual_pattern"
  {
  }

  /** Every tag names at most one variant, except `hexcasting:manual_pattern`, which names two. */
  lemma {:induction false} TagResolution(t: string)
    ensures t == "hexcasting:manual_pattern" ==> VariantsTagged(t) == {ManualOpPatternPage, ManualRawPatternPage}
    ensures t != "hexcasting:manual_pattern" ==> |VariantsTagged(t)| <= 1
  {
    if t != "hexcasting:manual_pattern" {
      var found := VariantsTagged(t);
      if found != {} {
        var v :| v in found;
        forall w | w in found ensures w == v {
          if w != v { SharedManualPatternTag(v, w); }
        }
        assert found == {v};
      }
    }
  }

  /** The three manual pattern variants, and only they, use the `PageWithPattern` template. */
  lemma ManualPatternTemplates(v: PageVariant)
    ensures TemplateName(v) == Some("PageWithPattern") <==>
      v in {ManualOpPatternPage, ManualRawPatternPage, ManualPatternNosigPage}
    ensures TemplateName(v).Some? ==> TemplateName(v) == Some("PageWithPattern")
  {
  }

  /** Only the signature-less variant pins `input` and `output` to `None`. */
  lemma NosigHasNoSignature(v: PageVariant)
    ensures FieldsFixedToNone(v) != {} <==> v == ManualPatternNosigPage
    ensures FieldsFixedToNone(ManualPatternNosigPage) == {"input", "output"}
    ensures Base(ManualPatternNosigPage) == Base(ManualRawPatternPage)
  {
  }
}
