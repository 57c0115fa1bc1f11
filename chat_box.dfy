/**
 * The chat panel: the colour each author's name is shown in, and the
 * message input with its submit rule.
 */
module ChatBox {
  import opened Text
  import opened GameTypes

  /**
   * `getPlayerColor(playerName)`: the colour of the first player with that
   * name; cyan when no player has it or that player's colour is empty.
   */
  function PlayerColor(players: seq<Player>, playerName: string): (c: string)
    ensures c != ""
    ensures forall k ::
              (&& 0 <= k < |players| && players[k].playerName == playerName
               && (forall j :: 0 <= j < k ==> players[j].playerName != playerName)) ==>
                c == (if players[k].playerColor != "" then players[k].playerColor else FallbackColor)
    ensures (forall k :: 0 <= k < |players| ==> players[k].playerName != playerName) ==> c == FallbackColor
  {
    var k := FindIndex(players, (p: Player) => p.playerName == playerName);
    ColorOr(if k < |players| then Some(players[k].playerColor) else None)
  }

  /** How one message is shown: system notices plainly, player messages under a coloured name. */
  datatype MessageLine =
    | SystemLine(text: string)
    | AuthorLine(author: string, color: string, text: string)

  function MessageLines(messages: seq<ChatMessage>, players: seq<Player>): (lines: seq<MessageLine>)
    ensures |lines| == |messages|
    ensures forall i :: 0 <= i < |messages| ==>
              if messages[i].isSystem then lines[i] == SystemLine(messages[i].message)
              else lines[i] == AuthorLine(messages[i].playerName, PlayerColor(players, messages[i].playerName), messages[i].message)
  {
    seq(|messages|, i requires 0 <= i < |messages| =>
      var m := messages[i];
      if m.isSystem then SystemLine(m.message) else AuthorLine(m.playerName, PlayerColor(players, m.playerName), m.message))
  }

  /** `disabled={!input.trim()}` on the send button. */
  predicate SendDisabled(input: string) {
    IsBlank(input)
  }

  /** The message input's state. */
  class ChatInput {
    var input: string

    constructor ()
      ensures input == ""
    {
      input := "";
    }

    /** `onChange`: the field shows what was typed. */
    method Type(value: string)
      modifies this
      ensures input == value
    {
      input := value;
    }

    /**
     * `handleSubmit`: a non-blank input is sent trimmed and the field is
     * cleared; a blank one sends nothing and stays as it is.
     */
    method Submit() returns (sent: Option<string>)
      modifies this
      ensures sent.Some? <==> !SendDisabled(old(input))
      ensures sent.Some? ==> sent.value == Trim(old(input)) && input == ""
      ensures sent.None? ==> input == old(input)
    {
      var trimmed := Trim(input);
      if trimmed != "" {
        sent := Some(trimmed);
        input := "";
      } else {
        sent := None;
      }
    }
  }

  /**
   * A sent message is never empty, has no whitespace at either end, and
   * submitting it again would send it unchanged.
   */
  lemma SentMessageTrimmed(input: string)
    requires !SendDisabled(input)
    ensures var m := Trim(input);
      && m != [] && !IsWhitespace(m[0]) && !IsWhitespace(m[|m| - 1])
      && Trim(m) == m && !SendDisabled(m)
  {
    TrimIdempotent(input);
  }
}
