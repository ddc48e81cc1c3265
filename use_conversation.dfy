/** `useConversation`: the conversation list hook with the selected id and
    the router's history (`history`, newest last). Outcomes of the requests
    are parameters; a failure is caught and shows a toast. */
module UseConversation {
  import opened Common
  import opened ClientTypes
  import opened KeyedList

  /** The fallback route id of an empty list. */
  const FALLBACK_ID: string := "1"

  /** `updated[0]?.id || "1"`: the empty string is falsy, so it falls back
      too. */
  function NextSelection(updated: seq<Conversation>): (id: string)
    ensures |updated| > 0 && updated[0].id != "" ==> id == updated[0].id
    ensures |updated| == 0 || updated[0].id == "" ==> id == FALLBACK_ID
    ensures id != ""
  {
    if |updated| > 0 && updated[0].id != "" then updated[0].id else FALLBACK_ID
  }

  class UseConversation {
    const notebookId: string
    var conversations: seq<Conversation>
    var selectedId: Option<string>
    var history: seq<string>

    constructor(initialConversations: seq<Conversation>, notebookId: string, history: seq<string>)
      ensures conversations == initialConversations && this.notebookId == notebookId
      ensures selectedId.None? && this.history == history
    {
      this.notebookId := notebookId;
      conversations := initialConversations;
      selectedId := None;
      this.history := history;
    }

    /** `fetchConversations()`. */
    method FetchConversations(answer: Option<seq<Conversation>>) returns (toast: bool)
      modifies this
      ensures answer.Some? ==> conversations == answer.value
      ensures answer.None? ==> conversations == old(conversations)
      ensures toast <==> answer.None?
      ensures selectedId == old(selectedId) && history == old(history)
    {
      if answer.Some? {
        conversations := answer.value;
      }
      toast := answer.None?;
    }

    /** `createConversation()`: the new conversation leads, is selected and
        is navigated to. */
    method CreateConversation(answer: Option<Conversation>) returns (toast: bool)
      modifies this
      ensures answer.Some? ==>
        && conversations == [answer.value] + old(conversations)
        && selectedId == Some(answer.value.id)
        && history == Push(old(history), ConversationRoute(notebookId, answer.value.id))
      ensures answer.None? ==>
        && conversations == old(conversations) && selectedId == old(selectedId)
        && history == old(history)
      ensures toast <==> answer.None?
    {
      if answer.Some? {
        conversations := [answer.value] + conversations;
        selectedId := Some(answer.value.id);
        history := Push(history, ConversationRoute(notebookId, answer.value.id));
      }
      toast := answer.None?;
    }

    /** `deleteConversation(id)`. */
    method DeleteConversation(id: string, ok: bool) returns (toast: bool)
      modifies this
      ensures ok ==> conversations == Without(old(conversations), ConversationId, id)
      ensures ok && old(selectedId) == Some(id) ==>
        && selectedId == Some(NextSelection(conversations))
        && history == Replace(old(history), ConversationRoute(notebookId, NextSelection(conversations)))
      ensures ok && old(selectedId) != Some(id) ==> selectedId == old(selectedId) && history == old(history)
      ensures !ok ==> conversations == old(conversations) && selectedId == old(selectedId) && history == old(history)
      ensures toast <==> !ok
    {
      if ok {
        var updated := Without(conversations, ConversationId, id);
        conversations := updated;
        if selectedId == Some(id) {
          var nextId := NextSelection(updated);
          selectedId := Some(nextId);
          history := Replace(history, ConversationRoute(notebookId, nextId));
        }
      }
      toast := !ok;
    }
  }

  /** After deleting the selected conversation the selection is never the
      deleted id, unless that id is the fallback itself. */
  lemma DeleteMovesSelection(conversations: seq<Conversation>, id: string)
    requires id != FALLBACK_ID
    ensures NextSelection(Without(conversations, ConversationId, id)) != id
  {
    var updated := Without(conversations, ConversationId, id);
    if |updated| > 0 {
      assert updated[0] in updated;
    }
  }
}
