/**
 * The parts of a draft-js editor state that the autoformat code reads:
 * the block map of the current content and the selection.
 */
module Editor {
  import opened Wrappers

  type BlockKey = string

  /** The block map of a ContentState, reduced to block key -> block text. */
  type Content = map<BlockKey, string>

  /**
   * A SelectionState: the anchor and focus positions and whether the focus
   * comes before the anchor.  Offsets are JavaScript numbers, so arithmetic on
   * them can leave the range of the block.
   */
  datatype Selection = Selection(anchorKey: BlockKey, anchorOffset: int, focusKey: BlockKey, focusOffset: int, isBackward: bool)
  {
    function StartKey(): BlockKey { if isBackward then focusKey else anchorKey }
    function StartOffset(): int { if isBackward then focusOffset else anchorOffset }
    function EndKey(): BlockKey { if isBackward then anchorKey else focusKey }
    function EndOffset(): int { if isBackward then anchorOffset else focusOffset }

    predicate IsCollapsed() { anchorKey == focusKey && anchorOffset == focusOffset }

    /** `merge({anchorOffset, focusOffset})`: only the two offsets change; keys and direction stay. */
    function WithOffsets(anchor: int, focus: int): Selection
    {
      this.(anchorOffset := anchor, focusOffset := focus)
    }
  }

  /** `getBlockForKey`: the text of the block, or None where draft-js yields `undefined`. */
  function BlockText(content: Content, key: BlockKey): (r: Option<string>)
    ensures r.Some? <==> key in content
    ensures r.Some? ==> r.value == content[key]
  {
    if key in content then Some(content[key]) else None
  }

  /** A selection that names one existing block and an in-order range inside its text. */
  predicate WellFormedIn(sel: Selection, content: Content)
  {
    && sel.StartKey() == sel.EndKey()
    && sel.StartKey() in content
    && 0 <= sel.StartOffset() <= sel.EndOffset() <= |content[sel.StartKey()]|
  }

  /**
   * The text effect of `Modifier.replaceText(content, sel, replacement, null)`,
   * as this model assumes it: on a well-formed range, the selected characters
   * of the block are replaced by `replacement` and nothing else changes.
   * Outside a well-formed range the library's behaviour is not modelled (None).
   */
  function ReplaceText(content: Content, sel: Selection, replacement: string): (r: Option<Content>)
    ensures r.Some? <==> WellFormedIn(sel, content)
    ensures r.Some? ==>
      var key, s, e := sel.StartKey(), sel.StartOffset(), sel.EndOffset();
      && r.value.Keys == content.Keys
      && (forall k :: k in content && k != key ==> r.value[k] == content[k])
      && |r.value[key]| == |content[key]| - (e - s) + |replacement|
      && r.value[key][..s] == content[key][..s]
      && r.value[key][s..s + |replacement|] == replacement
      && r.value[key][s + |replacement|..] == content[key][e..]
  {
    if WellFormedIn(sel, content) then
      var key, text := sel.StartKey(), content[sel.StartKey()];
      Some(content[key := text[..sel.StartOffset()] + replacement + text[sel.EndOffset()..]])
    else
      None
  }
}
