# NoteFlow core, modelled in Dafny

NoteFlow is a notebook application. Each notebook holds:
- uploaded source files;
- rich-text notes, whose bodies are trees of editor blocks;
- chat conversations.

A FastAPI backend stores these in MongoDB collections. It keeps the source files on Cloudinary, and it splits and embeds their text for retrieval. A Next.js frontend keeps local copies of the lists in React state and updates them after each request.

This project models both halves.

Backend:
- The file, conversation, note and notebook routers are methods over a database object (`Database.Db`) whose four collections are maps. Each route states its whole reply and its whole new state, error statuses included.
- The pydantic schemas are datatypes with their defaults. Validation and dumping are proved to be inverse.
- The Cloudinary helpers are a loop over uploads plus a delete, with the SDK calls as parameters.
- The fixed-size chunker is modelled over an abstract tokenizer. The point-building and ingest loops of the vector scripts are modelled too.

Frontend:
- The hooks and components (`useFileSelect`, `useSource`, `useNotes`, `useConversation`, `useSearch`, `DiscoverSource`, `SourceFileUpload`, `NoteContainer`, `HistoryConversation`) are classes. Their fields are the component state, and each handler is a method taking the request's outcome as a parameter.
- Each list rewrite the handlers perform is a function. Lemmas relate these functions to one another: toggling twice, select-all uniformity, delete-then-select, move-to-front shape and so on.
- The search route's fence stripping and id tagging are functions with round-trip lemmas.

One module per source file. Shared modules:
- `Common`: options, responses, the JSON value type, ObjectId;
- `Text`: string trimming and splitting;
- `KeyedList`: filter by key, move to front;
- `Sorting`: a stable descending sort by key.

## Model

| member | source | states |
|---|---|---|
| FileSelect.SetChecked | frontend/src/hooks/useFileSelect.tsx:12-18 | same length; every entry with the id takes `checked := value`, every other entry is unchanged |
| FileSelect.SelectAllTarget | frontend/src/hooks/useFileSelect.tsx:25 | the bulk target is "checked" exactly when some file is unchecked |
| FileSelect.SelectAllResult | frontend/src/hooks/useFileSelect.tsx:26-37 | same length and positions; file `i` takes the one shared target when its request succeeds and is unchanged when it fails |
| FileSelect.FileSelect.ToggleSelectFile | frontend/src/hooks/useFileSelect.tsx:6-22 | on success the list becomes `SetChecked(old, fileId, !currentChecked)`; a failure leaves it unchanged |
| FileSelect.FileSelect.ToggleSelectAll | frontend/src/hooks/useFileSelect.tsx:24-39 | the list is replaced by the per-file mapped result |
| FileSelect.ToggleTwice | frontend/src/hooks/useFileSelect.tsx:12-18 | toggling to `!c` and back restores a list whose matching entries all held `c` |
| FileSelect.ToggleStale | frontend/src/hooks/useFileSelect.tsx:6-18 | the value written comes from `currentChecked`: a stale argument rewrites the stored value and changes nothing |
| FileSelect.SetCheckedKeeps | frontend/src/hooks/useFileSelect.tsx:13-17 | only `checked` changes; ids, order and every other field stay |
| FileSelect.SelectAllNoFailure | frontend/src/hooks/useFileSelect.tsx:25-37 | with no failed request every file ends at the target |
| FileSelect.SelectAllTwice | frontend/src/hooks/useFileSelect.tsx:24-38 | two successful clicks restore the list iff it started all checked or all unchecked |
| DiscoverSource.Strip | frontend/src/components/client/notebook/source/DiscoverSource.tsx:81 | dropping `description` keeps every other field of the source |
| DiscoverSource.Checked | frontend/src/components/client/notebook/source/DiscoverSource.tsx:80 | the filter keeps at most the given sources, and only checked ones |
| DiscoverSource.CheckedExactly | frontend/src/components/client/notebook/source/DiscoverSource.tsx:80 | a source is kept iff it is one of the sources and is ticked; the result is empty iff nothing is ticked and keeps every source iff every one is ticked |
| DiscoverSource.ImportPayload | frontend/src/components/client/notebook/source/DiscoverSource.tsx:80-81 | one entry per checked source, in order, each the source without its description |
| DiscoverSource.Toggled | frontend/src/components/client/notebook/source/DiscoverSource.tsx:68-72 | same length; entries with the id have `checked` flipped, the others are identical |
| DiscoverSource.AllSetTo | frontend/src/components/client/notebook/source/DiscoverSource.tsx:76 | same length; every entry takes the one value, with no other field changed |
| DiscoverSource.DiscoverSource.constructor | frontend/src/components/client/notebook/source/DiscoverSource.tsx:42-47 | no results shown, no sources, empty query, not loading, dialog closed |
| DiscoverSource.DiscoverSource.SelectedCount | frontend/src/components/client/notebook/source/DiscoverSource.tsx:91 | the count equals the length of the import payload; it is 0 iff no source is ticked and equals the number of sources iff every source is ticked |
| DiscoverSource.DiscoverSource.ResetImport | frontend/src/components/client/notebook/source/DiscoverSource.tsx:49-54 | results hidden, sources emptied, query cleared, dialog closed; `loading` untouched |
| DiscoverSource.DiscoverSource.HandleDiscover | frontend/src/components/client/notebook/source/DiscoverSource.tsx:55-67 | a blank query changes nothing; otherwise a successful answer replaces the sources and shows them, a failure keeps them, and `loading` ends false |
| DiscoverSource.DiscoverSource.HandleToggleFile | frontend/src/components/client/notebook/source/DiscoverSource.tsx:68-72 | the sources become `Toggled(old, id)`; nothing else changes |
| DiscoverSource.DiscoverSource.HandleSelectAll | frontend/src/components/client/notebook/source/DiscoverSource.tsx:74-77 | every source takes `!every(checked)`; nothing else changes |
| DiscoverSource.DiscoverSource.HandleImport | frontend/src/components/client/notebook/source/DiscoverSource.tsx:79-90 | the POST carries the import payload; `onImportComplete` gets that same payload and only on success; the dialog is reset either way |
| DiscoverSource.CheckedConcat | frontend/src/components/client/notebook/source/DiscoverSource.tsx:80 | the filter distributes over concatenation, so it keeps the order of the sources |
| DiscoverSource.CheckedNone | frontend/src/components/client/notebook/source/DiscoverSource.tsx:80-91 | with nothing ticked the payload is empty and the count is 0 |
| DiscoverSource.SelectAllUniform | frontend/src/components/client/notebook/source/DiscoverSource.tsx:74-77 | one click leaves every source with the same tick: unticked if all were ticked, ticked otherwise |
| DiscoverSource.ImportAllChecked | frontend/src/components/client/notebook/source/DiscoverSource.tsx:80-91 | when every source is ticked the payload is all of them, in order, without descriptions, and the count is their number |
| SourceFileUpload.Find | frontend/src/components/client/notebook/source/SourceFileUpload.tsx:142 | `None` exactly when no entry has the format; otherwise the source of the first entry that has it |
| SourceFileUpload.Icon | frontend/src/components/client/notebook/source/SourceFileUpload.tsx:15-24 | the icon is the first table match's source, or `other.png` when the format is not in the table (also line 142) |
| SourceFileUpload.FindNamed | frontend/src/components/client/notebook/source/SourceFileUpload.tsx:15-24 | in a table whose sources are named after their formats, a successful lookup finds the image named after the format asked for |
| SourceFileUpload.IconOfListed | frontend/src/components/client/notebook/source/SourceFileUpload.tsx:15-24 | each listed format shows `/icon/format/<format>.png` (also line 142) |
| SourceFileUpload.IconOfUnlisted | frontend/src/components/client/notebook/source/SourceFileUpload.tsx:142 | any format outside the eight listed ones, `svg` included, shows `other.png` |
| SourceFileUpload.SelectAllBoxTarget | frontend/src/components/client/notebook/source/SourceFileUpload.tsx:122 | on a non-empty list the header box is ticked iff a click would untick everything; after a click with no failure it shows that click's target |
| SourceFileUpload.Action | frontend/src/components/client/notebook/source/SourceFileUpload.tsx:149-165 | a `url` file gets an open-link action on its url, every other file a download action on its id |
| SourceFileUpload.SourceFileUpload.constructor | frontend/src/components/client/notebook/source/SourceFileUpload.tsx:30-36 | an empty list, no upload and no download in progress |
| SourceFileUpload.SourceFileUpload.FetchData | frontend/src/components/client/notebook/source/SourceFileUpload.tsx:38-49 | a successful GET replaces the list, a failure keeps it |
| SourceFileUpload.SourceFileUpload.HandleAddFile | frontend/src/components/client/notebook/source/SourceFileUpload.tsx:51-67 | no request when no file list was given; a successful upload puts the returned records ahead of the old list, a failure keeps it; `loadingAdd` ends false |
| SourceFileUpload.SourceFileUpload.HandleDownloadFile | frontend/src/components/client/notebook/source/SourceFileUpload.tsx:70-79 | marks the download, clicks the link `<API URL>/files/download_file/<note id>/<id>`, and leaves the list alone |
| SourceFileUpload.SourceFileUpload.DownloadSettled | frontend/src/components/client/notebook/source/SourceFileUpload.tsx:81 | the download mark is cleared |
| SourceFileUpload.SourceFileUpload.HandleDeleteFile | frontend/src/components/client/notebook/source/SourceFileUpload.tsx:84-95 | a successful delete drops every entry with the id and keeps the rest in order; a failure keeps the list |
| SourceFileUpload.SourceFileUpload.OnImportComplete | frontend/src/components/client/notebook/source/SourceFileUpload.tsx:116 | the imported files go before the earlier list |
| SourceFileUpload.UploadThenDelete | frontend/src/components/client/notebook/source/SourceFileUpload.tsx:61 | uploading records with new ids and then deleting each of them gives back the earlier list (also line 89) |
| UseSource.UseSource.constructor | frontend/src/hooks/useSource.tsx:5-8 | the list starts as the initial files; nothing is loading |
| UseSource.UseSource.AddFile | frontend/src/hooks/useSource.tsx:10-22 | no file list changes nothing; a successful upload puts the returned records ahead of the old list; a failure keeps the list and reaches the caller (no `catch`); `loadingAdd` ends false |
| UseSource.UseSource.DeleteFile | frontend/src/hooks/useSource.tsx:24-31 | a successful delete drops every entry with the id, in order; a failure is caught and keeps the list |
| UseSource.UseSource.DownloadFile | frontend/src/hooks/useSource.tsx:33-37 | the marker is set to the id before the request; the list is untouched; a failed request throws and starts no reset timer |
| UseSource.UseSource.DownloadSettled | frontend/src/hooks/useSource.tsx:36 | the reset timer clears the marker and nothing else |
| UseNotes.MoveToFront | frontend/src/hooks/useNotes.tsx:35 | the answered note comes first; after it no note carries the id, and exactly the other earlier notes remain |
| UseNotes.UseNotes.constructor | frontend/src/hooks/useNotes.tsx:8-9 | the list starts as the initial notes |
| UseNotes.UseNotes.Create | frontend/src/hooks/useNotes.tsx:11-26 | the body carries the hook's notebook id, the title, the blocks and the clock; a success puts the answer at the head and returns it; a failure returns null and keeps the list |
| UseNotes.UseNotes.Update | frontend/src/hooks/useNotes.tsx:28-41 | the body carries title and blocks; a success gives `[updated] + (old without the id)` and returns it; a failure returns null and keeps the list |
| UseNotes.UseNotes.Remove | frontend/src/hooks/useNotes.tsx:43-50 | a success drops every note with the id and keeps the others in order; a failure keeps the list |
| UseNotes.CreateThenRemoveNote | frontend/src/hooks/useNotes.tsx:20 | creating a note with a new id and removing that id gives back the earlier list (also line 46) |
| UseNotes.UpdateHead | frontend/src/hooks/useNotes.tsx:35 | updating the head note, when its id occurs only there, swaps it in place |
| UseNotes.UpdateTwice | frontend/src/hooks/useNotes.tsx:35 | a second update of the same id replaces the first |
| NoteContainer.SaveAction | frontend/src/components/client/notebook/note/NoteContainer.tsx:200 | the save button sends an update iff `editingNoteId` is non-empty, otherwise a create |
| NoteContainer.NoteContainer.constructor | frontend/src/components/client/notebook/note/NoteContainer.tsx:29-40 | the initial notes, no note being edited, the title "New note", `loading` true, the dialog closed, no blocks |
| NoteContainer.NoteContainer.Render | frontend/src/components/client/notebook/note/NoteContainer.tsx:114-119 | the spinner is rendered exactly while `loading`; as every method keeps `loading`, that is always |
| NoteContainer.NoteContainer.ResetImport | frontend/src/components/client/notebook/note/NoteContainer.tsx:42-47 | blocks cleared and no note being edited; nothing else changes |
| NoteContainer.NoteContainer.HandleEdit | frontend/src/components/client/notebook/note/NoteContainer.tsx:53-72 | `editingNoteId` is set before the fetch; a loaded note replaces blocks and title; a failed fetch throws with the rest unchanged |
| NoteContainer.NoteContainer.HandleCreate | frontend/src/components/client/notebook/note/NoteContainer.tsx:75-86 | the body carries notebook id, title, blocks and clock; the dialog closes first; a success prepends the answer and resets the editor; a failure throws, keeps the notes and skips the reset |
| NoteContainer.NoteContainer.HandleUpdate | frontend/src/components/client/notebook/note/NoteContainer.tsx:88-100 | the PATCH goes to `editingNoteId` with title and blocks; the dialog closes first; a success moves the answer to the front in place of every entry with that id and resets the editor; a failure throws and changes nothing else |
| NoteContainer.NoteContainer.HandleDelete | frontend/src/components/client/notebook/note/NoteContainer.tsx:102-112 | a success filters the note out; a failure keeps the list and shows a toast |
| NoteContainer.NoteContainer.OnSave | frontend/src/components/client/notebook/note/NoteContainer.tsx:200 | the request sent follows `SaveAction`, and the notes change as that request's handler says |
| ClientTypes.Push | frontend/src/hooks/useConversation.tsx:26 | `router.push` adds one history entry, the route, after the existing ones |
| ClientTypes.Replace | frontend/src/hooks/useConversation.tsx:41 | `router.replace` makes the route the current entry and keeps every earlier one |
| UseConversation.NextSelection | frontend/src/hooks/useConversation.tsx:39 | the first remaining id when there is one and it is non-empty, otherwise `"1"`; never empty |
| UseConversation.UseConversation.constructor | frontend/src/hooks/useConversation.tsx:7-10 | the initial list, and no selection |
| UseConversation.UseConversation.FetchConversations | frontend/src/hooks/useConversation.tsx:12-19 | a successful fetch replaces the list wholesale; a failure keeps it and shows a toast |
| UseConversation.UseConversation.CreateConversation | frontend/src/hooks/useConversation.tsx:21-30 | a success prepends the new conversation, selects it and navigates to it; a failure changes nothing and shows a toast |
| UseConversation.UseConversation.DeleteConversation | frontend/src/hooks/useConversation.tsx:32-46 | a success drops every entry with the id; when it was selected the selection and the current route move to `NextSelection` of the rest; otherwise the selection stays; a failure changes nothing |
| UseConversation.DeleteMovesSelection | frontend/src/hooks/useConversation.tsx:35-40 | after the selected conversation is deleted the new selection is never the deleted id, unless that id is `"1"` |
| HistoryConversation.NextSelection | frontend/src/components/client/notebook/HistoryConversation.tsx:66-74 | the first remaining id when the list is non-empty, even an empty one; `"1"` otherwise |
| HistoryConversation.HistoryConversation.constructor | frontend/src/components/client/notebook/HistoryConversation.tsx:14-18 | the initial list, and no selection |
| HistoryConversation.HistoryConversation.HandleClick | frontend/src/components/client/notebook/HistoryConversation.tsx:19-22 | the clicked id is selected and becomes the current route; the list is untouched |
| HistoryConversation.HistoryConversation.CreateConversation | frontend/src/components/client/notebook/HistoryConversation.tsx:44-56 | a success prepends `{id, title}` from the answer, selects it and navigates to it; with no `catch` a failure throws and changes nothing |
| HistoryConversation.HistoryConversation.OnConversationId | frontend/src/components/client/notebook/HistoryConversation.tsx:36-42 | the selection follows the URL id; a conversation is created iff that id is missing, empty or `"1"`; a created conversation goes first, is selected and its route is pushed, and a failed creation leaves list and history as they were |
| HistoryConversation.HistoryConversation.HandleDelete | frontend/src/components/client/notebook/HistoryConversation.tsx:58-82 | a success drops every entry with the id; when it was selected the selection and the current route move to `NextSelection` of the rest; otherwise the selection stays; a failure changes nothing and shows a toast |
| HistoryConversation.SelectionsAgree | frontend/src/components/client/notebook/HistoryConversation.tsx:66-74 | the side bar and the hook choose the same next selection iff the rest is empty or its first id is non-empty |
| HistoryConversation.DeleteMovesSelection | frontend/src/components/client/notebook/HistoryConversation.tsx:63-75 | after the selected conversation is deleted the new selection is never the deleted id, unless that id is `"1"` |
| SearchRoute.Error | frontend/src/app/api/search/route.ts:15-18 | an error answer is JSON with the given status (also lines 42-45) |
| SearchRoute.StripOpen | frontend/src/app/api/search/route.ts:32 | a leading "```json" goes together with the white space after it; text without it is unchanged |
| SearchRoute.StripClose | frontend/src/app/api/search/route.ts:32 | a final "```" goes together with all the white space before it; text without it is unchanged |
| SearchRoute.Tag | frontend/src/app/api/search/route.ts:34-37 | the tagged item is an object whose `public_id` is the new id; an object item keeps every other field |
| SearchRoute.TagAll | frontend/src/app/api/search/route.ts:34-37 | one tagged item per parsed item, in order, item `k` taking the `k`-th fresh id |
| SearchRoute.Post | frontend/src/app/api/search/route.ts:10-47 | a body that is not JSON, or is `null`, throws before the `try`; a falsy `query` gives 400 and no model call; a failed generation, a failed parse or a non-array gives 500; otherwise 200 with the tagged list |
| SearchRoute.FencesRoundTrip | frontend/src/app/api/search/route.ts:31-32 | a fenced answer whose text neither starts nor ends with white space gives back exactly that text |
| SearchRoute.FencesAroundBlank | frontend/src/app/api/search/route.ts:32 | fences around white space only give the empty text |
| SearchRoute.NoFencesUnchanged | frontend/src/app/api/search/route.ts:32 | text with neither fence is unchanged |
| SearchRoute.TagKeepsFields | frontend/src/app/api/search/route.ts:34-37 | item `k` of the answer is the model's item `k` with only `public_id` overridden, by the `k`-th fresh id |
| UseSearch.ToFile | frontend/src/hooks/useSearch.tsx:18-26 | `public_id`, title, url and format come from the source's id, title, url and type; the entry is checked and stamped with the clock |
| UseSearch.DiscoverAI | frontend/src/hooks/useSearch.tsx:17-27 | no sources give the empty list; otherwise exactly one entry per source, in order |
| UseSearch.DiscoveredAllChecked | frontend/src/hooks/useSearch.tsx:23 | every discovered entry starts checked |
| FilesRouter.ExpiredIds | backend/routers/filesRouter.py:31-36 | an id is collected iff some entry carrying it was stamped more than seven days before `now` |
| FilesRouter.CleanupRemovesExpiredIds | backend/routers/filesRouter.py:31-40 | when every cloud delete succeeds, working through the snapshot pulls exactly the entries whose `public_id` belongs to an expired entry, keeping the rest in order |
| FilesRouter.CleanupResult | backend/routers/filesRouter.py:25-40 | with every cloud delete succeeding, no expired entry survives the cleanup, and an entry survives iff no expired entry shares its `public_id` |
| FilesRouter.CleanupKeepsStamps | backend/routers/filesRouter.py:37-40 | cleanup only pulls entries: every surviving entry was already in the list, unchanged |
| FilesRouter.CleanupExpiredFiles | backend/routers/filesRouter.py:25-40 | without a storage document nothing changes; otherwise only that document's `file_list` changes, to the cleanup of its own snapshot (which stops at the first failed cloud delete) |
| FilesRouter.GetAllFiles | backend/routers/filesRouter.py:43-54 | no document answers `[]`; otherwise the stored list sorted newest `updated_at` first, read before the scheduled cleanup runs |
| FilesRouter.PushFiles | backend/routers/filesRouter.py:88-97 | an existing document gets the new entries appended and `updated_at` set; a missing one is created from the filter only with `upsert` |
| FilesRouter.SavedName | backend/routers/filesRouter.py:66-103 | the name saved under `uploads/` is the part of the file name after its last `/` |
| FilesRouter.UploadEndpoint | backend/routers/filesRouter.py:58-106 | a disk or Cloudinary failure gives 400 "Upload File Error" and stores nothing; on success the uploaded records are appended with upsert and the saved names are reported in order |
| FilesRouter.StampAll | backend/routers/filesRouter.py:136-140 | one entry per source, in order, each with `created_at` and `updated_at` set to `now` and nothing else changed |
| FilesRouter.UploadUrlEndpoint | backend/routers/filesRouter.py:131-150 | the stamped sources are returned; they are appended to an existing document, and nothing is created without one |
| FilesRouter.CreateFileStorage | backend/routers/filesRouter.py:153-165 | a notebook without storage gets an empty, fully stamped document; the new id is returned |
| FilesRouter.DeleteSingleFile | backend/routers/filesRouter.py:168-181 | a failed cloud delete (skipped for links) gives 500 with the delete's own detail and changes nothing; otherwise success iff an entry has the id, pulling every such entry, else 404 "File upload not found" |
| FilesRouter.SetFirst | backend/routers/filesRouter.py:188-196 | the positional update changes the first entry with the id and no other |
| FilesRouter.UpdateFirst | backend/routers/filesRouter.py:188-201 | an update takes effect iff the document and an entry with the id exist and the change modifies that entry; it then stores `SetFirst` of the list |
| FilesRouter.StampedSetFirst | backend/routers/filesRouter.py:191-194 | a positional update that stamps `updated_at` keeps every entry stamped |
| FilesRouter.UpdateTitle | backend/routers/filesRouter.py:185-203 | success iff the update took effect; otherwise the 404 is re-raised as 500 "404: File not found" and nothing changes |
| FilesRouter.UpdateChecked | backend/routers/filesRouter.py:206-215 | success iff the update took effect; otherwise 404 "File not found" and nothing changes |
| FilesRouter.UpdateCheckedFirstOnly | backend/routers/filesRouter.py:209-212 | only the first entry with the id changes, and only in `checked` and `updated_at` |
| FilesRouter.ContentType | backend/routers/filesRouter.py:237-239 | the guessed type when there is one, else `application/octet-stream` |
| FilesRouter.DownloadFile | backend/routers/filesRouter.py:222-239 | no document gives 404 "Notebook not found", no entry 404 "File not found"; otherwise the first entry with the id is served with its url, title and content type, or 500 when the fetch fails |
| Cloudinary.Record | backend/libs/cloudinary.py:34-42 | the stored id is the part of the cloud id after its last `/` (so it has none); title is the file name, `format` its original-case extension, checked, both stamps `now` |
| Cloudinary.AcceptedFiles | backend/libs/cloudinary.py:26-28 | the kept names are among the chosen ones, in order, each with an accepted lower-cased extension |
| Cloudinary.UploadOkIff | backend/libs/cloudinary.py:25-50 | the upload succeeds iff the upload of every accepted file answers; one failure makes the whole call 500 with no partial list |
| Cloudinary.UploadFailsAtFirst | backend/libs/cloudinary.py:25-50 | a failed upload's detail is "Error uploading files: " followed by the error of the first accepted file whose upload raised; every accepted file before it was answered |
| Cloudinary.UploadRecords | backend/libs/cloudinary.py:21-44 | on success there is exactly one record per accepted file, in input order, each built from that file's name and the shared `now` |
| Cloudinary.UploadFiles | backend/libs/cloudinary.py:20-50 | the loop computes the upload outcome for the whole list, stopping at the first raising upload |
| Cloudinary.FailStays | backend/libs/cloudinary.py:46-50 | once one upload has raised, the files after it do not change the outcome |
| Cloudinary.DeleteCloudFile | backend/libs/cloudinary.py:68-86 | success iff deleting `Note_Learning/<id>` answers "ok" or "not found", returning that answer; any other answer is 500 "Error deleting <type>: 500: Failed to delete <type> from Cloudinary: <answer>", and a raised error is 500 "Error deleting <type>: <error>" |
| Cloudinary.DeleteTargetSplits | backend/libs/cloudinary.py:35 | the delete target built from a stored id names exactly that id after the folder, so uploads and deletes agree (also line 74) |
| ConversationsRouter.NewConversation | backend/routers/conversationsRouter.py:150-159 | a new conversation is titled "New chat", has no messages, is not deleted, has both stamps `now` and expires three days later |
| ConversationsRouter.Pushed | backend/routers/conversationsRouter.py:96-105 | the message goes last, `updated_at` becomes `now` and `expireAt` three days later; nothing else changes, and the document always changes |
| ConversationsRouter.SoftDeleted | backend/routers/conversationsRouter.py:196-205 | the soft delete sets `deleted`, `deleted_at` and `expireAt` and keeps messages, title, notebook and stamps |
| ConversationsRouter.CreateConversation | backend/routers/conversationsRouter.py:144-163 | a notebook id that is not an ObjectId gives 400 and stores nothing; otherwise the new conversation is stored under the new id, which is returned |
| ConversationsRouter.UpdateConversation | backend/routers/conversationsRouter.py:85-110 | a malformed id gives 400; otherwise success iff the conversation exists, appending the message, else 404; no other collection changes |
| ConversationsRouter.GetAllConversation | backend/routers/conversationsRouter.py:113-124 | exactly the notebook's conversations that are not deleted, each once, with its own title, newest `updated_at` first |
| ConversationsRouter.GetConversation | backend/routers/conversationsRouter.py:127-141 | a malformed id gives 400, a missing conversation 404; otherwise its title and its messages in stored order |
| ConversationsRouter.UpdateTitle | backend/routers/conversationsRouter.py:166-185 | a malformed id gives 400; success iff the conversation exists and its title differs, changing only the title; otherwise 404 and nothing changes |
| ConversationsRouter.DeleteConversation | backend/routers/conversationsRouter.py:188-210 | a malformed id gives 400; success iff the conversation exists and the soft delete changes it; otherwise 404 and nothing changes |
| ConversationsRouter.DeletedNotListed | backend/routers/conversationsRouter.py:117 | a soft-deleted conversation keeps its messages but is no longer listed; whether any other conversation is listed does not change (also lines 196-205) |
| ConversationsRouter.UpdateThenGet | backend/routers/conversationsRouter.py:96-105 | a message added by the update is read back as the last message, after the earlier ones (also lines 134-141) |
| ConversationsRouter.AssistantMessage | backend/routers/conversationsRouter.py:54-63 | the assistant's message has the fresh id, role "assistant" and one text part holding the answer |
| ConversationsRouter.QueryRag | backend/routers/conversationsRouter.py:22-82 | a malformed id or a missing conversation ends in 500 carrying the 400 or the 404 and changes nothing; otherwise the user's message is stored first, a failed RAG call is 500 and leaves it stored, and success appends the assistant's answer and returns it with its intent and mode "Hybrid/Full" |
| ConversationsRouter.QueryAppendsInOrder | backend/routers/conversationsRouter.py:39-74 | after a query the conversation ends with the user's message followed by the assistant's |
| NoteRouter.NewNote | backend/routers/noteRouter.py:81-88 | a new note is titled "New note", belongs to the notebook, has no blocks and both stamps `now` |
| NoteRouter.CreateNote | backend/routers/noteRouter.py:73-91 | a notebook id that is not an ObjectId gives 400 and stores nothing; otherwise the new note is stored under the new id, which is returned |
| NoteRouter.UpdateNoteBlocks | backend/routers/noteRouter.py:17-33 | a malformed id gives 400; success iff the note exists and replacing its blocks with the dumps and its `updated_at` changes it; otherwise 404 and nothing changes |
| NoteRouter.GetAllNotes | backend/routers/noteRouter.py:36-49 | exactly the notebook's notes, each once, with its own title, newest `updated_at` first |
| NoteRouter.GetNoteAsWritten | backend/routers/noteRouter.py:51-71 | as written: a malformed id gives 400, a missing note 404, and every note found comes back without blocks |
| NoteRouter.GetNote | backend/routers/noteRouter.py:51-71 | corrected to read `blocks`: a malformed id gives 400, a missing note 404, stored blocks that do not validate 500; otherwise the note with its validated blocks |
| NoteRouter.UpdateThenGet | backend/routers/noteRouter.py:24-28 | blocks saved by the update are read back by the corrected read, tree for tree, with the new `updated_at` (also line 62) |
| NoteRouter.UpdateThenGetAsWritten | backend/routers/noteRouter.py:28 | as written, a note saved with any block is read back with different blocks (none) (also line 62) |
| NoteRouter.UpdateNoteTitle | backend/routers/noteRouter.py:93-107 | a malformed id gives 400; success iff the note exists and setting title and `updated_at` changes it; otherwise 404 and nothing changes |
| NoteRouter.DeleteNote | backend/routers/noteRouter.py:109-120 | a malformed id gives 400; success iff the note exists, removing it and nothing else; otherwise 404 |
| NoteRouter.DeleteThenGet | backend/routers/noteRouter.py:116 | after a delete the note reads as 404 (also lines 58-60) |
| NotebookRouter.GetAllNotebooks | backend/routers/notebookRouter.py:21-34 | every stored notebook once, each read with "" for a missing `avatar` or `bgcolor` |
| NotebookRouter.GetNotebook | backend/routers/notebookRouter.py:38-52 | a malformed id is 500, a missing notebook 404, a notebook without any conversation 500; otherwise its stamps and a most recently updated conversation of it, deleted or not |
| NotebookRouter.NewNotebook | backend/routers/notebookRouter.py:58-65 | the stored notebook keeps the uploaded title, avatar and colour and gets both stamps `now` |
| NotebookRouter.CreateNotebook | backend/routers/notebookRouter.py:56-77 | the notebook, its first conversation and its file storage are stored under the new ids, which are returned; notes do not change |
| NotebookRouter.CreatedReadsBack | backend/routers/notebookRouter.py:59-67 | a created notebook reads back with the uploaded fields and both stamps (also lines 26-33) |
| NotebookRouter.UpdateTitle | backend/routers/notebookRouter.py:80-99 | a malformed id gives 400; success iff the notebook exists and the title differs, setting only the title; otherwise 404 "Conversation not found" |
| NotebookRouter.RetitleReads | backend/routers/notebookRouter.py:90-92 | a retitled notebook reads back with the new title and every other field unchanged |
| NotebookRouter.UpdateNotebook | backend/routers/notebookRouter.py:102-124 | a body that does not validate is 422, a malformed id 400; success iff the notebook exists and the `$set` changes it, answering the re-read notebook; otherwise 404 |
| NotebookRouter.SetNotebook | backend/routers/notebookRouter.py:108-124 | the supplied fields and `updated_at` are set on the stored notebook, which is re-read; 404 when it is missing or unchanged |
| NotebookRouter.UpdateSetGet | backend/routers/notebookRouter.py:111 | the update sets exactly the fields the body supplied, with their validated values, plus `updated_at` |
| NotebookRouter.UpdateReads | backend/routers/notebookRouter.py:111-122 | the updated document reads back with each supplied field's new value, every other field's old value and the new `updated_at` |
| NotebookRouter.DeleteNotebook | backend/routers/notebookRouter.py:128-136 | a malformed id is 500; success iff the notebook exists, removing only it (its conversations and storage stay); otherwise 404 |
| Database.GetOr | backend/routers/notebookRouter.py:29-32 | `doc.get(k, d)`: the stored value when the key is present, else the default |
| Database.ReadNotebook | backend/routers/notebookRouter.py:26-33 | a document reads as a notebook only when its title and `created_at` are present and validate, and the result carries those stored values (also lines 116-122) |
| Database.ReadDumped | backend/routers/notebookRouter.py:59-67 | a stored notebook dump reads back as the notebook that was dumped (also lines 26-33) |
| Database.SetAll | backend/routers/notebookRouter.py:109-112 | after a `$set`, each named key holds its new value and every other key its old one |
| Listing.Selected | backend/routers/conversationsRouter.py:116-117 | a key is selected iff its document exists and passes the filter |
| Listing.NewestFirst | backend/routers/noteRouter.py:39-44 | the cursor yields exactly the selected documents, each once, with non-increasing `updated_at` |
| Listing.Enumerate | backend/routers/notebookRouter.py:23-25 | an unsorted cursor yields every stored document exactly once |
| Pydantic.ReqStr | backend/schemas/fileSchema.py:7-8 | a required `str` field validates iff it is present as a string, and then gives that string |
| Pydantic.StrOr | backend/schemas/notebookSchema.py:7-8 | a `str` field with a default gives the default when absent, and validates iff a present value is a string |
| Pydantic.OptStrOr | backend/schemas/fileSchema.py:6 | an `Optional[str]` field with a default gives the default when absent, `None` for null and the string when one is present |
| Pydantic.BoolOr | backend/schemas/fileSchema.py:9 | a `bool` field with a default gives the default when absent and the value when a boolean is present |
| Pydantic.ReqTime | backend/schemas/fileSchema.py:18 | a required `datetime` field validates iff it is present as a time, and then gives that time |
| Pydantic.TimeOr | backend/schemas/fileSchema.py:11 | a `datetime` field with the `datetime.now` default factory gives the clock when absent and the time when one is present |
| Pydantic.OptTime | backend/schemas/fileSchema.py:12 | an `Optional[datetime] = None` field gives `None` when absent or null and the time when one is present |
| Pydantic.ParseList | backend/schemas/fileSchema.py:16 | a `List[T]` validates iff every item does, giving the items' values in order |
| Pydantic.DumpList | backend/schemas/fileSchema.py:16 | a list dumps item by item, in order |
| Pydantic.ListRoundTrip | backend/schemas/fileSchema.py:16 | a list whose items round-trip through dump and validation round-trips as a whole |
| Pydantic.ParseDict | backend/schemas/noteSchema.py:10 | a `Dict[str, T]` validates iff every value does, keeping the keys and their order |
| Pydantic.DumpDict | backend/schemas/noteSchema.py:10 | a dict dumps entry by entry, keeping keys and order |
| Pydantic.DictRoundTrip | backend/schemas/noteSchema.py:10 | a dict whose values round-trip round-trips as a whole |
| FileSchema.FileRoundTrip | backend/schemas/fileSchema.py:5-12 | validating a dumped `SingleFile` gives the same record back, whatever the clock says |
| FileSchema.FileDefaults | backend/schemas/fileSchema.py:5-12 | a body with only `title`, `url` and `format` gets `public_id` "", checked, `created_at` from the clock and no `updated_at` |
| FileSchema.FileRequiresTitleUrlFormat | backend/schemas/fileSchema.py:7-10 | a body missing a `title`, `url` or `format` string is rejected |
| FileSchema.FileListRoundTrip | backend/schemas/fileSchema.py:16 | a dumped `file_list` validates back to the same records, in order |
| FileSchema.StorageRoundTrip | backend/schemas/fileSchema.py:14-18 | validating a dumped `FileListStorage` gives it back |
| FileSchema.StorageDefaults | backend/schemas/fileSchema.py:14-18 | a storage body needs only `notebookId` and `updated_at`; the list defaults to empty and `created_at` to the clock |
| NoteSchema.ParseProp | backend/schemas/noteSchema.py:20-30 | a property value validates only as a boolean, integer, float or string, each as the union member of its own type, and dumps back to the same value |
| NoteSchema.PropRoundTrip | backend/schemas/noteSchema.py:20-30 | every property value round-trips through dump and validation |
| NoteSchema.TextRoundTrip | backend/schemas/noteSchema.py:7-10 | validating a dumped `StyledText` gives it back, styles included |
| NoteSchema.TextsRoundTrip | backend/schemas/noteSchema.py:14 | a dumped list of styled texts validates back to the same list |
| NoteSchema.TextDefaults | backend/schemas/noteSchema.py:7-10 | a styled text needs only `text`; `type` defaults to "text" and `styles` to `{}` |
| NoteSchema.LinkRoundTrip | backend/schemas/noteSchema.py:12-15 | validating a dumped `Link` gives it back |
| NoteSchema.CustomRoundTrip | backend/schemas/noteSchema.py:17-20 | validating a dumped custom inline piece gives it back, content and props included |
| NoteSchema.OptTextsRoundTrip | backend/schemas/noteSchema.py:19 | optional styled-text content, null or a list, round-trips |
| NoteSchema.InlineRoundTrip | backend/schemas/noteSchema.py:22 | each member of the inline union validates back as itself, although the union tries `Link` first and `StyledText` second |
| NoteSchema.InlinesRoundTrip | backend/schemas/noteSchema.py:22-31 | a dumped inline list validates back to the same pieces in order |
| NoteSchema.TableRoundTrip | backend/schemas/noteSchema.py:24-25 | validating a dumped table gives it back, with or without rows |
| NoteSchema.ContentRoundTrip | backend/schemas/noteSchema.py:31 | block content (none, an inline list or a table) round-trips |
| NoteSchema.DumpNotes | backend/schemas/noteSchema.py:32 | one dump per block, so lists keep their length |
| NoteSchema.ParseNotes | backend/schemas/noteSchema.py:32 | a list of blocks validates only to a list of the same length |
| NoteSchema.NoteRoundTrip | backend/schemas/noteSchema.py:27-35 | validating a dumped block tree gives the same tree back, at every depth |
| NoteSchema.NotesRoundTrip | backend/schemas/noteSchema.py:32-40 | a dumped list of block trees validates back to the same list |
| NoteSchema.NoteDefaults | backend/schemas/noteSchema.py:27-32 | a block needs only `id` and `type`; props default to `{}`, content to none and children to `[]` |
| NoteSchema.Blocks | backend/schemas/noteSchema.py:32-35 | the blocks of a forest, in pre-order, form a finite list that holds every top-level block |
| NoteSchema.BlocksClosed | backend/schemas/noteSchema.py:32 | every child of a listed block is listed too, so the list holds the whole tree |
| NoteSchema.ContainerRoundTrip | backend/schemas/noteSchema.py:37-42 | validating a dumped `NoteContainer` gives it back, blocks included |
| NoteSchema.ContainerDefaults | backend/schemas/noteSchema.py:37-42 | a container needs only `title`, `notebookId` and `updated_at`; blocks default to `[]` and `created_at` to the clock |
| NotebookSchema.NotebookRoundTrip | backend/schemas/notebookSchema.py:5-10 | validating a dumped `Notebook` gives it back |
| NotebookSchema.NotebookDefaults | backend/schemas/notebookSchema.py:5-10 | a body with only a title gets "" for `avatar` and `bgcolor`, the clock for `created_at` and no `updated_at` |
| NotebookSchema.NotebookRequiresTitle | backend/schemas/notebookSchema.py:6 | a body without a title string is rejected |
| NotebookSchema.DumpSet | backend/routers/notebookRouter.py:111 | `model_dump(exclude_unset=True)` holds exactly the schema fields the body supplied, with their validated values |
| NotebookSchema.FieldsOfDump | backend/schemas/notebookSchema.py:5-10 | a full dump holds exactly the five schema fields, with the notebook's values |
| FixedChunk.WindowsCount | backend/ai/vectorseach/chunking/fixedChunk.py:12-15 | there is one window per started block of `size` tokens: `ceil((n - start) / size)` of them, none when nothing is left |
| FixedChunk.Windows | backend/ai/vectorseach/chunking/fixedChunk.py:12-15 | a step of 0 is refused, a negative step gives no windows; a positive one gives none exactly for empty input and otherwise `ceil(n / size)` windows |
| FixedChunk.WindowAt | backend/ai/vectorseach/chunking/fixedChunk.py:13-14 | window `k` is the token slice `[k*size, min((k+1)*size, n))` |
| FixedChunk.WindowSizes | backend/ai/vectorseach/chunking/fixedChunk.py:13-14 | every window but the last holds exactly `size` tokens, and the last holds between 1 and `size` |
| FixedChunk.WindowsConcat | backend/ai/vectorseach/chunking/fixedChunk.py:13-14 | the windows from `start` put back together are the tokens from `start` on |
| FixedChunk.WindowsCover | backend/ai/vectorseach/chunking/fixedChunk.py:12-15 | the windows put back together are exactly the token sequence: nothing lost, nothing repeated |
| FixedChunk.FixedSizeChunks | backend/ai/vectorseach/chunking/fixedChunk.py:9-15 | a size of 0 is refused; otherwise one chunk per window, chunk `k` being the decoding of window `k` |
| FixedChunk.DefaultChunkCount | backend/ai/vectorseach/chunking/fixedChunk.py:6-15 | with the default size of 40, a text of `n` tokens gives `ceil(n / 40)` chunks, none for no tokens |
| ChunkPoints.Chunkers | backend/ai/vectorseach/main.py:40-60 | the fixed chunker cuts `MAX_TOKENS`-token windows through the tokenizer; the sentence and semantic splitters are the library's |
| ChunkPoints.Payload | backend/ai/vectorseach/main.py:83-101 | the payload holds the chunk and its strategy tag, and every other key as the source's own fields have it |
| ChunkPoints.Tagged | backend/ai/vectorseach/main.py:79-85 | one point per chunk of a strategy |
| ChunkPoints.AppendChunks | backend/ai/vectorseach/main.py:79-85 | the loop appends one point per chunk, numbered on from `idx`, and advances `idx` by the number of chunks |
| ChunkPoints.AppendItem | backend/ai/vectorseach/main.py:78-103 | the three loops of one text append its fixed, then sentence, then semantic points and advance `idx` past them |
| ChunkPoints.PointIds | backend/ai/vectorseach/main.py:64-85 | over the whole run, point `i` has id `i`: ids are 0, 1, 2, ... in creation order |
| ChunkPoints.ItemLayout | backend/ai/vectorseach/main.py:78-103 | one text gives its fixed chunks first, then its sentence chunks, then its semantic ones, each point with the text's fields, its own chunk and tag, and the vector its tag names (or the single unnamed one) |
| ChunkPoints.AllPointsPrefix | backend/ai/vectorseach/main.py:67-103 | the points of the first `j` texts are exactly the first points created |
| ChunkPoints.PointOwner | backend/ai/vectorseach/main.py:72-83 | a point created while text `j` was processed is one of that text's points and carries its fields |
| VectorIngest.DocPayloadFields | backend/ai/vectorseach/main.py:72-76 | a document's payload holds its title, content and integer label |
| VectorIngest.DocPoint | backend/ai/vectorseach/main.py:72-103 | every point of document `j` carries that document's title, content and label, its own chunk and its strategy |
| VectorIngest.IngestData | backend/ai/vectorseach/main.py:63-113 | `idx` ends at the number of points created; every point is uploaded exactly once, in order, in batches sent at the first document end that finds at least `batch_size` points buffered, only the remainder being smaller |
| VectorIngest.IngestOne | backend/ai/vectorseach/main.py:67-108 | one document's points join the buffer, which is sent as a batch and emptied once it holds `batch_size` points, keeping the batching invariant |
| VectorIngest.SendAfter | backend/ai/vectorseach/main.py:105-108 | a buffer at `batch_size` or over after a document becomes the next batch, the stretch of points since the last one |
| VectorIngest.KeepAfter | backend/ai/vectorseach/main.py:105 | a buffer below `batch_size` is kept, and the invariant holds one document later |
| VectorIngest.Finish | backend/ai/vectorseach/main.py:110-111 | after the last document a non-empty remainder is sent, completing the batching |
| VectorIngest.LastBatch | backend/ai/vectorseach/main.py:105-111 | only the remainder batch may hold fewer than `batch_size` points |
| MovieIngest.MovieItems | backend/ai/vectorseach/ingest/upload.py:17-19 | one chunking item per movie, in file order |
| MovieIngest.IngestMovies | backend/ai/vectorseach/ingest/upload.py:9-46 | nothing is uploaded when a movie lacks a string description; otherwise every point goes to "movie_search" in one call, whatever the arguments, and the reported count is their number |
| MovieIngest.MoviePoint | backend/ai/vectorseach/ingest/upload.py:19-43 | every point of movie `j` carries all of that movie's fields but `chunk` and `chunking`, which hold its own chunk and tag, and fills the single unnamed vector |
| Common.Find | backend/routers/filesRouter.py:230 | the index of the first field with the key, or -1 when none has it |
| Common.Get | backend/routers/notebookRouter.py:29-32 | a lookup finds a value iff some field has the key |
| Common.Put | backend/ai/vectorseach/main.py:83 | after setting a key it holds the new value, every other key keeps its value, and the field count grows only for a new key |
| Common.ParseObjectId | backend/routers/conversationsRouter.py:30-33 | an id parses iff it is 24 hexadecimal digits; its canonical form is 24 lower-case hexadecimal digits |
| Common.ObjectIdStrRoundTrip | backend/routers/conversationsRouter.py:31 | the canonical form of a parsed id parses to itself (also line 162) |
| Text.TrimStart | frontend/src/components/client/notebook/source/DiscoverSource.tsx:56 | the result is a suffix, what it drops is all whitespace, and it does not start with whitespace |
| Text.TrimEnd | frontend/src/components/client/notebook/source/DiscoverSource.tsx:56 | the result is a prefix, what it drops is all whitespace, and it does not end with whitespace |
| Text.TrimEmptyIffBlank | frontend/src/components/client/notebook/source/DiscoverSource.tsx:56 | a trimmed query is empty iff the query is all whitespace |
| Text.TrimIdempotent | frontend/src/components/client/notebook/source/DiscoverSource.tsx:56 | trimming twice is trimming once |
| Text.AfterLast | backend/libs/cloudinary.py:27-35 | `split(sep)[-1]`: the longest suffix without the separator, which follows a separator when it is not the whole text |
| Text.AfterLastAbsent | backend/libs/cloudinary.py:35 | a text without the separator is its own last segment |
| Text.AfterLastOfJoin | backend/routers/filesRouter.py:66 | the last segment of `prefix/last` is that of `last` (also line 103) |
| Text.LowerAscii | backend/libs/cloudinary.py:27 | lower-casing keeps the length and maps each character on its own |
| KeyedList.Without | frontend/src/hooks/useNotes.tsx:46 | `filter(x => key(x) !== id)`: exactly the elements with another key survive, never more than there were |
| KeyedList.WithoutConcat | frontend/src/hooks/useSource.tsx:27 | filtering a concatenation filters each part |
| KeyedList.WithoutAbsent | frontend/src/hooks/useSource.tsx:27 | filtering out a key nobody has changes nothing |
| KeyedList.WithoutRemovesKey | frontend/src/hooks/useSource.tsx:27 | after filtering no element has the key |
| KeyedList.WithoutIdempotent | frontend/src/hooks/useNotes.tsx:46 | deleting twice is deleting once |
| KeyedList.CreateThenRemove | frontend/src/components/client/notebook/note/NoteContainer.tsx:107 | deleting an element just put in front under a fresh key gives the list back |
| KeyedList.MoveToFrontShape | frontend/src/hooks/useNotes.tsx:35 | the moved element comes first, no other element keeps its key, and the list grows by at most one |
| KeyedList.Keys | frontend/src/hooks/useSource.tsx:27 | the set of keys present in the list |
| KeyedList.IndexOf | backend/routers/filesRouter.py:230 | `next(...)`: the first position with the key, -1 iff there is none |
| KeyedList.WithoutAll | backend/routers/filesRouter.py:37-40 | exactly the elements whose key is outside the set survive |
| KeyedList.WithoutAfterWithoutAll | backend/routers/filesRouter.py:37-40 | pulling one more key after a set of keys is pulling the larger set |
| Sorting.InsertDesc | backend/routers/filesRouter.py:53 | inserting into a newest-first list keeps it newest first and adds exactly the one element |
| Sorting.SortDesc | backend/routers/filesRouter.py:53 | `sorted(..., reverse=True)`: newest first and a permutation of the input |
| Sorting.SortDescStable | backend/routers/filesRouter.py:53 | the sort is stable: for every timestamp, the records stamped with it keep their input order |
| Sorting.SortDescOfSorted | backend/routers/filesRouter.py:53 | a list already newest first sorts to itself |

## Left out

- Embeddings, the vector database and the language-model calls are left out because they are foreign libraries working on floating-point vectors. This covers `encoder.py`, `qdrantClient.py`, `searchEngine.py`, the sentence and semantic splitters, and the SentenceTransformer, Qdrant and llama-index calls in `main.py`. The splitters and the tokenizer's encode and decode are parameters of the model.
- `main.py` decodes chunks without any option for special tokens; the model's decode parameter stands for whatever the tokenizer does.
- The download spinner's 1000 ms timers are timing, not state, so they are left out. So are JSX rendering, toasts, the BlockNote editor's internals and Next.js navigation; navigation appears only as an assigned id.
- `uuid` generation is modelled as a supply of fresh ids passed in by the caller.
- The Gemini call and `JSON.parse` in the search route are parameters, because they are outside the code modelled.
- SearchRoute.Tag: spreading an item that is not an object contributes no fields. JavaScript would copy a string's characters, or an array's elements, under their indexes as keys; the model does not.
- UseSearch.ToFile: `DiscoverAI` in `useSearch` stamps `created_at` and `updated_at` from two `new Date()` calls; the model uses one `now` for both.
- JavaScript truthiness of `NaN` and `BigInt` values is not modelled; only the value kinds the JSON type has are.
- A functional `setState` updater is applied at the point of the call. React's batching of updates is not modelled.
- `SourceFileUpload`: an input whose `files` is `null` and one whose file list is empty are not told apart. An empty file list still posts an empty form.
- The POST response of `DiscoverSource`'s import is not read by the component, and the model ignores it too.
- `upload_endpoint` in `filesRouter.py`: writing the temporary files to disk and `rag.ingest` are I/O, so they are left out. The model keeps which files are accepted and what record is stored.
- FilesRouter.UploadEndpoint: the upload path reads the clock twice, once in `upload_files` for the record stamps and once in `upload_endpoint` for the document's `updated_at`. The model uses one `now` for both.
- FilesRouter.UploadEndpoint: the reply's `message` text ("Uploaded and ingested <n> files successfully.") is not modelled; the reply keeps the uploaded records and the ingested names.
- `download_file`'s fetch with aiohttp is a parameter (the fetched bytes or a failure).
- The Cloudinary SDK's upload and destroy are parameters: each gives an answer, or the text of the exception it raised.
- `upload_image` in `backend/libs/cloudinary.py` is not used by any modelled route, so it is left out.
- ObjectId validity is modelled as exactly 24 hexadecimal characters, stored lower-case. bson's other accepted forms (12-byte strings) are not modelled.
- Pydantic's smart union mode is modelled as trying the alternatives left to right. Its scoring of partial matches between alternatives is not modelled.
- Pydantic.BoolOr: pydantic's lax coercion is not modelled, for example the strings `"true"` or the number `1` accepted as a boolean, or ISO strings accepted as datetimes by `ReqTime` and `TimeOr`. Only values already of the field's type validate.
- ConversationsRouter.GetConversation: the stored messages are returned as stored. The route re-validates each through `MessageItem`, and `backend/schemas/conversationSchema.py` is not part of this model.
- Datetimes are integer seconds. The time-zone normalisation in `cleanup_expired_files` therefore has nothing to do, and it is left out.
- SearchRoute.FencesRoundTrip: it requires a text that neither starts nor ends with white space, because the route trims it. Fences around white space only are `SearchRoute.FencesAroundBlank`.
- Sorting: ties keep their stored order (`Sorting.SortDescStable`), as Python's stable `sorted` does. The order of ties inside a MongoDB cursor's `.sort` is not modelled.
- `backend/services/upload.py` and `backend/libs/docling.py` are not part of this model. The first imports a function that does not exist; the second converts a fixed URL and returns nothing.
- The thin HTTP wrappers in `frontend/src/lib` are not modelled; each request is an abstract outcome.
- The client's POST to `/notes` is not reconciled with the backend's note routes; each side is modelled as written.
- `SourceFileUpload` reads `res.data` while `fileApi` returns `res.data.uploaded_files`. The two are not reconciled; each side is modelled as written.
- `get_all_files` schedules cleanup as a background task. The model runs the cleanup as a separate method that the caller sequences.
- MongoDB's own TTL expiry of documents is not modelled.
- In `cleanup_expired_files`, the first Cloudinary delete that raises ends the cleanup. The model has each delete succeed or fail by a parameter: a failure stops the loop, and the files it has already pulled stay pulled.
- `Promise.all` and FastAPI background tasks run concurrently. Their observable results are a positional map and a sequential pass, so concurrency is not modelled.

## Findings

| source | as written | input that shows it | evidently intended | confidence | as-written member | corrected member |
|---|---|---|---|---|---|---|
| backend/routers/noteRouter.py:62 | `update_note_blocks` writes the blocks under `blocks` (line 28), but the read validates `doc.get("notes", [])`, so every note is read back without blocks | any note saved with one or more blocks, then read with `get_note` | read the stored `blocks` field | not executed | NoteRouter.GetNoteAsWritten, NoteRouter.UpdateThenGetAsWritten | NoteRouter.GetNote, NoteRouter.UpdateThenGet |
