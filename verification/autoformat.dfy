/**
 * The markdown-style autoformat dispatcher of the rich-text editor: when a
 * space is about to be typed into a block whose trimmed text is exactly one
 * of the trigger literals, the trigger is replaced by a single space and one
 * formatting effect is applied, and the keystroke is reported as handled.
 */
module Autoformat {
  import opened Wrappers
  import opened Text
  import opened Editor

  /** The four triggers, in the order `handleBeforeInput` tests them. */
  datatype Rule = Hash | Asterisk | DoubleAsterisk | TripleAsterisk

  /** The literal a block's trimmed text must equal for the rule to fire. */
  function Pattern(rule: Rule): (p: string)
    ensures |p| >= 1 && IsTrimmed(p)
  {
    match rule
    case Hash => "#"
    case Asterisk => "*"
    case DoubleAsterisk => "**"
    case TripleAsterisk => "***"
  }

  /** The formatting applied after the text replacement (`RichUtils.toggleBlockType` or `toggleInlineStyle`). */
  datatype Effect = ToggleBlockType(blockType: string) | ToggleInlineStyle(style: string)

  /**
   * What a handler does to the editor state: replace the `target` range with
   * `text` carrying inline style `style` (`null` in the source), push the
   * result with change type `changeType`, then apply `effect`.
   */
  datatype Plan = Plan(target: Selection, text: string, style: Option<string>, changeType: string, effect: Effect)

  /** The value `handleBeforeInput` reports, or the TypeError raised when the start block is missing. */
  datatype Outcome = NotHandled | Handled(plan: Plan) | NoBlock

  /** Trigger detection: only a pending `" "`, and only exact equality of the trimmed block text with a literal. */
  function Detect(chars: string, blockText: string): (r: Option<Rule>)
    ensures forall rule :: r == Some(rule) <==> chars == " " && Trim(blockText) == Pattern(rule)
  {
    var text := Trim(blockText);
    if chars == " " then
      if text == "#" then Some(Hash)
      else if text == "*" then Some(Asterisk)
      else if text == "**" then Some(DoubleAsterisk)
      else if text == "***" then Some(TripleAsterisk)
      else None
    else
      None
  }

  /** The four handlers `handleHash`, `handleAsterisk`, `handleDoubleAsterisk`, `handleTripleAsterisk`. */
  function PlanFor(rule: Rule, sel: Selection): (p: Plan)
    ensures p.text == " " && p.style == None && p.changeType == "replace-text"
    ensures p.target.anchorKey == sel.anchorKey && p.target.focusKey == sel.focusKey
    ensures p.target.isBackward == sel.isBackward
  {
    match rule
    case Hash =>
      Plan(sel.WithOffsets(0, 1), " ", None, "replace-text", ToggleBlockType("header-one"))
    case Asterisk =>
      Plan(sel.WithOffsets(0, 1), " ", None, "replace-text", ToggleInlineStyle("BOLD"))
    case DoubleAsterisk =>
      Plan(sel.WithOffsets(sel.StartOffset() - 2, sel.EndOffset()), " ", None, "replace-text", ToggleInlineStyle("RED_LINE"))
    case TripleAsterisk =>
      Plan(sel.WithOffsets(sel.StartOffset() - 3, sel.EndOffset()), " ", None, "replace-text", ToggleInlineStyle("UNDERLINE"))
  }

  /** `handleBeforeInput(chars, editorState)`: inspect the block at the selection's start key and dispatch. */
  function BeforeInput(chars: string, content: Content, sel: Selection): (r: Outcome)
    ensures r.NoBlock? <==> sel.StartKey() !in content
    ensures r.Handled? ==> chars == " "
  {
    match BlockText(content, sel.StartKey())
    case None => NoBlock
    case Some(blockText) =>
      match Detect(chars, blockText)
      case None => NotHandled
      case Some(rule) => Handled(PlanFor(rule, sel))
  }

  /** The string returned to draft-js. */
  function Reply(outcome: Outcome): (s: string)
    requires !outcome.NoBlock?
    ensures s == "handled" <==> outcome.Handled?
    ensures s == "not-handled" <==> outcome.NotHandled?
  {
    if outcome.Handled? then "handled" else "not-handled"
  }

  // ---------------------------------------------------------------------------
  // Detection

  /** Any pending input other than exactly one space is not handled, whatever the block holds. */
  lemma NonSpaceNotHandled(chars: string, content: Content, sel: Selection)
    requires chars != " " && sel.StartKey() in content
    ensures BeforeInput(chars, content, sel) == NotHandled
  {
  }

  /** A missing start block makes the source raise before the pending input is examined. */
  lemma MissingBlockRaises(chars: string, content: Content, sel: Selection)
    requires sel.StartKey() !in content
    ensures BeforeInput(chars, content, sel) == NoBlock
  {
  }

  /** Detection by `rule` is exactly a pending space and the rule's literal with only whitespace around it. */
  lemma DetectIff(chars: string, blockText: string, rule: Rule)
    ensures Detect(chars, blockText) == Some(rule) <==>
      chars == " " && exists pre, post :: AllWhitespace(pre) && AllWhitespace(post)
                                        && blockText == pre + Pattern(rule) + post
  {
    TrimCharacterization(blockText, Pattern(rule));
  }

  /**
   * A keystroke is handled by `rule` exactly when the start block's text
   * detects `rule`; at most one rule applies, and the selection need not be
   * collapsed.
   */
  lemma HandledIff(chars: string, content: Content, sel: Selection, rule: Rule)
    requires sel.StartKey() in content
    ensures BeforeInput(chars, content, sel) == Handled(PlanFor(rule, sel)) <==>
      Detect(chars, content[sel.StartKey()]) == Some(rule)
    ensures BeforeInput(chars, content, sel).Handled? <==> Detect(chars, content[sel.StartKey()]).Some?
  {
  }

  /** Whitespace around a literal is ignored: the literal's rule fires. */
  lemma PaddedPatternTriggers(pre: string, rule: Rule, post: string)
    requires AllWhitespace(pre) && AllWhitespace(post)
    ensures Detect(" ", pre + Pattern(rule) + post) == Some(rule)
  {
    TrimPadded(pre, Pattern(rule), post);
  }

  /** Block text `"  ** "` selects the double-asterisk rule. */
  lemma PaddedDoubleAsteriskExample()
    ensures Detect(" ", "  ** ") == Some(DoubleAsterisk)
  {
    assert "  ** " == "  " + Pattern(DoubleAsterisk) + " ";
    PaddedPatternTriggers("  ", DoubleAsterisk, " ");
  }

  /** Neither a prefix match nor a longer run of asterisks triggers. */
  lemma NearMissesNotDetected()
    ensures Detect(" ", "*a") == None
    ensures Detect(" ", "****") == None
    ensures Detect(" ", "# a") == None
  {
    assert Trim("*a") == "*a";
    assert Trim("****") == "****";
    assert Trim("# a") == "# a";
  }

  /** Only the start block is inspected: other blocks and the rest of the selection do not change the decision. */
  lemma OnlyStartBlockMatters(chars: string, c1: Content, c2: Content, sel: Selection)
    requires sel.StartKey() in c1 && sel.StartKey() in c2
    requires c1[sel.StartKey()] == c2[sel.StartKey()]
    ensures BeforeInput(chars, c1, sel) == BeforeInput(chars, c2, sel)
  {
  }

  /** A non-collapsed selection over `"*"` is still detected. */
  lemma NonCollapsedSelectionDetected(key: BlockKey)
    ensures var sel := Selection(key, 0, key, 1, false);
      && !sel.IsCollapsed()
      && BeforeInput(" ", map[key := "*"], sel) == Handled(PlanFor(Asterisk, sel))
  {
  }

  // ---------------------------------------------------------------------------
  // Plans

  /** Each literal maps to exactly one effect, and distinct literals to distinct effects. */
  lemma EffectTable(rule: Rule, sel: Selection)
    ensures PlanFor(rule, sel).effect == match rule
      case Hash => ToggleBlockType("header-one")
      case Asterisk => ToggleInlineStyle("BOLD")
      case DoubleAsterisk => ToggleInlineStyle("RED_LINE")
      case TripleAsterisk => ToggleInlineStyle("UNDERLINE")
    ensures forall other: Rule, sel': Selection :: other != rule ==> PlanFor(other, sel').effect != PlanFor(rule, sel).effect
  {
  }

  /** The `#` and `*` handlers always target offsets 0 and 1, wherever the cursor is. */
  lemma FixedRange(rule: Rule, sel: Selection, sel': Selection)
    requires rule == Hash || rule == Asterisk
    requires sel.anchorKey == sel'.anchorKey && sel.focusKey == sel'.focusKey && sel.isBackward == sel'.isBackward
    ensures PlanFor(rule, sel).target == PlanFor(rule, sel').target
    ensures !sel.isBackward ==> PlanFor(rule, sel).target.StartOffset() == 0 && PlanFor(rule, sel).target.EndOffset() == 1
  {
  }

  /**
   * The `**` and `***` handlers set the anchor to the literal's length before
   * the selection start and the focus to the selection end, whatever the
   * direction, taking both from the selection and not from the trimmed text.
   * The offsets are not checked.
   */
  lemma SelectionRange(rule: Rule, sel: Selection)
    requires rule == DoubleAsterisk || rule == TripleAsterisk
    ensures PlanFor(rule, sel).target.anchorOffset == sel.StartOffset() - |Pattern(rule)|
    ensures PlanFor(rule, sel).target.focusOffset == sel.EndOffset()
    ensures PlanFor(rule, sel).target.isBackward == sel.isBackward
    ensures !sel.isBackward ==>
      && PlanFor(rule, sel).target.StartOffset() == sel.StartOffset() - |Pattern(rule)|
      && PlanFor(rule, sel).target.EndOffset() == sel.EndOffset()
  {
  }

  /**
   * For a selection inside one block, the handler's replacement range is
   * well-formed exactly when the selection is forward and, for `#` and `*`, the
   * block is not empty, or, for `**` and `***`, the selection starts at least
   * the literal's length into the block.
   */
  lemma TargetWellFormedIff(rule: Rule, sel: Selection, content: Content)
    requires WellFormedIn(sel, content)
    ensures WellFormedIn(PlanFor(rule, sel).target, content) <==>
      && !sel.isBackward
      && (if rule == Hash || rule == Asterisk then |content[sel.StartKey()]| >= 1
          else sel.StartOffset() >= |Pattern(rule)|)
  {
  }

  /** A selection spanning two blocks always gives an ill-formed replacement range. */
  lemma CrossBlockIllFormed(rule: Rule, sel: Selection, content: Content)
    requires sel.anchorKey != sel.focusKey
    ensures !WellFormedIn(PlanFor(rule, sel).target, content)
  {
  }

  /**
   * When a forward selection inside the block triggers a rule, the replacement
   * range is well-formed, provided for `**` and `***` that the selection starts
   * at least the literal's length into the block.
   */
  lemma HandledTargetWellFormed(content: Content, sel: Selection, rule: Rule)
    requires WellFormedIn(sel, content) && !sel.isBackward
    requires BeforeInput(" ", content, sel) == Handled(PlanFor(rule, sel))
    requires rule == DoubleAsterisk || rule == TripleAsterisk ==> sel.StartOffset() >= |Pattern(rule)|
    ensures WellFormedIn(PlanFor(rule, sel).target, content)
  {
  }

  // ---------------------------------------------------------------------------
  // Text-level results (under the replaceText assumption of the Editor module)

  /**
   * A block holding exactly a literal, with the cursor just after it: the
   * keystroke is handled and the block becomes one space, so the typed space is
   * consumed rather than inserted as well.
   */
  lemma ConsumesTypedSpace(rule: Rule, key: BlockKey, content: Content)
    requires key in content && content[key] == Pattern(rule)
    ensures var n := |Pattern(rule)|;
      var sel := Selection(key, n, key, n, false);
      var p := PlanFor(rule, sel);
      && BeforeInput(" ", content, sel) == Handled(p)
      && ReplaceText(content, p.target, p.text) == Some(content[key := " "])
  {
    var n := |Pattern(rule)|;
    var sel := Selection(key, n, key, n, false);
    PaddedPatternTriggers([], rule, []);
    assert [] + Pattern(rule) + [] == Pattern(rule);
    var p := PlanFor(rule, sel);
    TargetWellFormedIff(rule, sel, content);
    var r := ReplaceText(content, p.target, p.text);
    assert r.value[key] == " ";
    assert r.value == content[key := " "];
  }

  /**
   * The `#` handler replaces offsets [0, 1) even when the `#` is not there:
   * block `" #"` with the cursor at its end keeps its `#` and becomes a heading.
   */
  lemma LeadingSpaceKeepsHash(key: BlockKey)
    ensures var content, sel := map[key := " #"], Selection(key, 2, key, 2, false);
      var p := PlanFor(Hash, sel);
      && BeforeInput(" ", content, sel) == Handled(p)
      && p.effect == ToggleBlockType("header-one")
      && ReplaceText(content, p.target, p.text) == Some(map[key := " #"])
  {
    var content := map[key := " #"];
    assert " #" == " " + Pattern(Hash) + "";
    PaddedPatternTriggers(" ", Hash, "");
    var t := PlanFor(Hash, Selection(key, 2, key, 2, false)).target;
    assert t == Selection(key, 0, key, 1, false);
    assert WellFormedIn(t, content);
    assert " #"[..0] + " " + " #"[1..] == " #";
    assert ReplaceText(content, t, " ") == Some(content[key := " #"]);
    assert content[key := " #"] == map[key := " #"];
  }

  /**
   * The `**` handler counts back from the cursor, not from the literal:
   * block `"** "` with the cursor at its end replaces offsets [1, 3) and one
   * `*` survives.
   */
  lemma TrailingSpaceKeepsAsterisk(key: BlockKey)
    ensures var content, sel := map[key := "** "], Selection(key, 3, key, 3, false);
      var p := PlanFor(DoubleAsterisk, sel);
      && BeforeInput(" ", content, sel) == Handled(p)
      && ReplaceText(content, p.target, p.text) == Some(map[key := "* "])
  {
    var content := map[key := "** "];
    assert "** " == "" + Pattern(DoubleAsterisk) + " ";
    PaddedPatternTriggers("", DoubleAsterisk, " ");
    var p := PlanFor(DoubleAsterisk, Selection(key, 3, key, 3, false));
    var r := ReplaceText(content, p.target, p.text);
    assert r.value[key] == "* ";
    assert r.value == map[key := "* "];
  }
}
