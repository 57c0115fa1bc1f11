/**
 * The page-wide key and context-menu guard that keeps players from using
 * the browser's find-in-page to locate numbers.
 */
module AntiCheat {

  /** The parts of a `KeyboardEvent` the guard reads. */
  datatype KeyEvent = KeyEvent(key: string, ctrlKey: bool, metaKey: bool)

  /** `handleKeyDown`: whether the default action of a key press is prevented. */
  function KeyDownPrevented(e: KeyEvent): (prevented: bool)
  {
    if (e.ctrlKey || e.metaKey) && e.key == "f" then true
    else if (e.ctrlKey || e.metaKey) && e.key == "g" then true
    else if e.key == "F3" then true
    else false
  }

  /** A key press is prevented exactly for find, find-next and F3. */
  lemma BlockedKeys(e: KeyEvent)
    ensures KeyDownPrevented(e) <==>
              || ((e.ctrlKey || e.metaKey) && (e.key == "f" || e.key == "g"))
              || e.key == "F3"
  {
  }

  /** The comparison is case-sensitive: Ctrl+Shift+F (key "F") and Ctrl+G typed as "G" pass through. */
  lemma UpperCaseLettersPass(ctrlKey: bool, metaKey: bool)
    ensures !KeyDownPrevented(KeyEvent("F", ctrlKey, metaKey))
    ensures !KeyDownPrevented(KeyEvent("G", ctrlKey, metaKey))
  {
  }

  /** Without Ctrl or Cmd, only F3 is prevented. */
  lemma PlainKeysPass(key: string)
    ensures KeyDownPrevented(KeyEvent(key, false, false)) <==> key == "F3"
  {
  }

  /** `handleContextMenu`: the context menu is prevented whatever was clicked. */
  function ContextMenuPrevented(): (prevented: bool)
    ensures prevented
  {
    true
  }
}
