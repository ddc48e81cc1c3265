/** `HistoryConversation`: the conversation side bar. Its own
    `createConversation` has no `try`, so a failed POST is `thrown`; its
    delete picks the first remaining id without a falsy check. */
module HistoryConversation {
  import opened Common
  import opened ClientTypes
  import opened KeyedList
  import UseConversation

  /** The id selected after deleting the selected conversation. */
  function NextSelection(updated: seq<Conversation>): (id: string)
    ensures |updated| > 0 ==> id == updated[0].id
    ensures |updated| == 0 ==> id == UseConversation.FALLBACK_ID
  {
    if |updated| > 0 then updated[0].id else UseConversation.FALLBACK_ID
  }

  /** `!params.conversationId || params.conversationId === "1"`. */
  predicate NeedsNew(param: Option<string>) {
    param.None? || param.value == "" || param.value == UseConversation.FALLBACK_ID
  }

  class HistoryConversation {
    const notebookId: string
    var conversations: seq<Conversation>
    var selectedId: Option<string>
    var history: seq<string>

    constructor(initialConversations: seq<Conversation>, notebookId: string, history: seq<string>)
      ensures conversations == initialConversations && this.notebookId == notebookId
      ensures selectedId.None? && this.history == history
    {
      this.notebookId := notebookId;
      conversations := initialConversations;
      selectedId := None;
      this.history := history;
    }

    /** `handleClick(id)`. */
    method HandleClick(conversationId: string)
      modifies this
      ensures selectedId == Some(conversationId)
      ensures history == Replace(old(history), ConversationRoute(notebookId, conversationId))
      ensures conversations == old(conversations)
    {
      selectedId := Some(conversationId);
      history := Replace(history, ConversationRoute(notebookId, conversationId));
    }

    /** `createConversation()`: `answer` is the conversation built from the
        POST's `{conversationId, title}`. */
    method CreateConversation(answer: Option<Conversation>) returns (thrown: bool)
      modifies this
      ensures thrown <==> answer.None?
      ensures answer.Some? ==>
        && conversations == [answer.value] + old(conversations)
        && selectedId == Some(answer.value.id)
        && history == Push(old(history), ConversationRoute(notebookId, answer.value.id))
      ensures answer.None? ==>
        && conversations == old(conversations) && selectedId == old(selectedId)
        && history == old(history)
    {
      if answer.None? {
        return true;
      }
      conversations := [answer.value] + conversations;
      selectedId := Some(answer.value.id);
      history := Push(history, ConversationRoute(notebookId, answer.value.id));
      return false;
    }

    /** The effect on a new URL `conversationId` (`None` when absent): the
        selection follows the URL, and a new conversation is created when
        the URL names none or the fallback. */
    method OnConversationId(param: Option<string>, answer: Option<Conversation>) returns (created: bool, thrown: bool)
      modifies this
      ensures created <==> NeedsNew(param)
      ensures !created ==> selectedId == param && conversations == old(conversations) && history == old(history)
      ensures created && answer.None? ==>
        thrown && selectedId == param && conversations == old(conversations) && history == old(history)
      ensures created && answer.Some? ==>
        && !thrown && selectedId == Some(answer.value.id)
        && conversations == [answer.value] + old(conversations)
        && history == Push(old(history), ConversationRoute(notebookId, answer.value.id))
      ensures !created ==> !thrown
    {
      selectedId := param;
      created := NeedsNew(param);
      thrown := false;
      if created {
        thrown := CreateConversation(answer);
      }
    }

    /** `handleDelete(id)`: a failure shows a toast. */
    method HandleDelete(id: string, ok: bool) returns (toast: bool)
      modifies this
      ensures ok ==> conversations == Without(old(conversations), ConversationId, id)
      ensures ok && old(selectedId) == Some(id) ==>
        && selectedId == Some(NextSelection(conversations))
        && history == Replace(old(history), ConversationRoute(notebookId, NextSelection(conversations)))
      ensures ok && old(selectedId) != Some(id) ==> selectedId == old(selectedId) && history == old(history)
      ensures !ok ==> conversations == old(conversations) && selectedId == old(selectedId) && history == old(history)
      ensures toast <==> !ok
    {
      if ok {
        var updated := Without(conversations, ConversationId, id);
        conversations := updated;
        if selectedId == Some(id) {
          var newId := NextSelection(updated);
          selectedId := Some(newId);
          history := Replace(history, ConversationRoute(notebookId, newId));
        }
      }
      toast := !ok;
    }
  }

  /** The side bar and the hook choose the same next selection except when
      the first remaining conversation has the empty id: the hook then falls
      back to "1", the side bar selects "". */
  lemma SelectionsAgree(updated: seq<Conversation>)
    ensures NextSelection(updated) == UseConversation.NextSelection(updated)
      <==> |updated| == 0 || updated[0].id != ""
  {
  }

  /** A successful delete of the selected conversation never leaves the
      deleted id selected, unless that id is "1". */
  lemma DeleteMovesSelection(conversations: seq<Conversation>, id: string)
    requires id != UseConversation.FALLBACK_ID
    ensures NextSelection(Without(conversations, ConversationId, id)) != id
  {
    var updated := Without(conversations, ConversationId, id);
    if |updated| > 0 {
      assert updated[0] in updated;
    }
  }
}
