# ShineL client collaboration core, modelled in Dafny

ShineL is a collaborative code editor with chat. Its React client keeps the
state of one project workspace: the file list, the open tabs and the active
tab, the users in the project room, the remote cursors and the last code
execution. The client syncs that state with other participants over a
socket, and it also runs a global chat, a per-project chat panel, voice
messages and an offline service worker.

This project models the client-side logic that decides what that state
becomes:

- the workspace reducers and socket handlers of `ProjectContext.js`;
- the editor's handling of local and remote edits, cursors and decorations
  (`CodeEditor.js`), over a line buffer that stands for Monaco's text model;
- the two message streams: deduplicating in `Chat.js`, appending in
  `ChatPanel.js`;
- the file tree's expansion, child selection and ordering (`FileExplorer.js`);
- the project list (`Projects.js`) and the terminal's output view
  (`Terminal.js`);
- `getFileUrl` (`api.js`), the recorder and the player of voice messages
  (`AudioRecorder.js`, `AudioMessage.js`), and the service worker (`sw.js`).

Every REST call and every result from a device, library or prompt is a
parameter of type `Outcome<T>`: either `Ok(value)` or `Err(failure)`. An
operation receives it and does what the source does on each path. Socket
emissions and requests sent are appended to log fields (`emitted`, `posts`,
`requests`, `executions`, `fetches`, `sent`), so a contract can say exactly
what was sent. Each `async` operation is modelled atomically, with no other
event handled while it awaits.

Modules, one per source file, plus shared helpers:

| module | source |
|---|---|
| `Outcomes`, `Seqs`, `JsStrings` | shared: Option/Outcome, keyed list removal and selection, JavaScript string tests |
| `TextBuffer` | the Monaco text model as lines; range clamping; edits |
| `Workspace` | `src/context/ProjectContext.js` |
| `EditorSync` | `src/components/CodeEditor.js` |
| `Messages`, `GlobalChat` | `src/pages/Chat.js` |
| `ProjectChat` | `src/components/ChatPanel.js` |
| `FileTree` | `src/components/FileExplorer.js` |
| `ProjectList` | `src/pages/Projects.js` |
| `Terminal` | `src/components/Terminal.js` |
| `FileUrls` | `src/utils/api.js` |
| `MediaTime`, `Recorder` | `src/components/AudioRecorder.js` |
| `Player` | `src/components/AudioMessage.js` |
| `ServiceWorker` | `public/sw.js` |

## Model

| member | source | states |
|---|---|---|
| Workspace.ProjectWorkspace.constructor | src/context/ProjectContext.js:16-24 | No project, no files, no tabs, no active tab, no users, no cursors, no output, not executing, nothing emitted. |
| Workspace.ProjectWorkspace.Emit | src/context/ProjectContext.js:62-64 | The `if (socket)` guard of every emission: the event is appended to the log when a socket exists, and the log is unchanged without one. |
| Workspace.ProjectWorkspace.LoadProject | src/context/ProjectContext.js:55-72 | On success, both the project and its files (none when the response has none) are loaded, and `join_project` is emitted with the owner id. A failure changes nothing and is returned. |
| Workspace.ProjectWorkspace.LeaveProject | src/context/ProjectContext.js:75-88 | `leave_project` is emitted when there is a project and a socket. Then the project, files, tabs, active tab, users and cursors are all cleared; the execution state is kept. |
| Workspace.ProjectWorkspace.OpenFile | src/context/ProjectContext.js:91-120 | An open id is only activated, with tabs and emissions unchanged. A content fetch that fails, or no project, leaves tabs, active tab and emissions unchanged. Otherwise exactly one tab is appended at the end and activated, and `file_open` is emitted. The active tab stays one of the open tabs. |
| Workspace.AfterClose | src/context/ProjectContext.js:123-137 | Every tab with the id is removed. A closed active tab hands over to the last remaining tab, or to none when no tab remains. Closing another tab keeps the active one. The active tab stays one of the open tabs. |
| Workspace.ProjectWorkspace.CloseFile | src/context/ProjectContext.js:123-137 | Tabs and active tab become `AfterClose` of the old ones; `file_close` is emitted; nothing else changes. |
| Workspace.ProjectWorkspace.EmitAll | src/components/CodeEditor.js:161-180 | Several events sent in a row are appended to the log in order; nothing else changes. |
| Workspace.WithContent | src/context/ProjectContext.js:145-150 | Same length; each entry whose id matches gets the new content, and every other entry is unchanged. |
| Workspace.WithContentIdempotent | src/context/ProjectContext.js:145-150 | Saving the same content twice equals saving it once. |
| Workspace.WithContentKeepsIds | src/context/ProjectContext.js:145-150 | A save changes no id, so the set of open ids is the same. |
| Workspace.ProjectWorkspace.SaveFile | src/context/ProjectContext.js:140-164 | With no project, it returns the `_id` TypeError. If the PUT fails, nothing changes and the error is returned. On success, the content is replaced on the matching entries of both lists and `file_save` is emitted. |
| Workspace.ProjectWorkspace.CreateFile | src/context/ProjectContext.js:167-189 | With no project, it fails with "No project loaded…" and changes nothing. Otherwise it returns the POST's outcome, and the file list grows by the created file only on success. |
| Workspace.ProjectWorkspace.DeleteFile | src/context/ProjectContext.js:192-205 | On success, the id leaves the file list and its tab is closed as `closeFile` does; afterwards no tab has the id. A failure, or no project, changes nothing. |
| Workspace.ErrorResult | src/context/ProjectContext.js:226-232 | The result stored on a failed execution: status "error", the failure text as the only output field, no time, no memory, no flags. |
| Workspace.ProjectWorkspace.StartExecution | src/context/ProjectContext.js:208-219 | Sets the busy flag, clears the output and logs the request body with the project and active file ids. |
| Workspace.ProjectWorkspace.FinishExecution | src/context/ProjectContext.js:221-234 | Stores the response, or the error result built from the failure, and clears the busy flag on both paths. |
| Workspace.ProjectWorkspace.ExecuteCode | src/context/ProjectContext.js:208-235 | One request is logged and the busy flag ends cleared. The output is the response, or on failure a result whose status is "error". |
| Workspace.ProjectWorkspace.OnUserJoined | src/context/ProjectContext.js:242-245 | The user is appended, with no duplicate check. |
| Workspace.JoinTwiceListsTwice | src/context/ProjectContext.js:243 | A user who joins twice is listed twice. |
| Workspace.ProjectWorkspace.OnUserLeft | src/context/ProjectContext.js:247-254 | Every entry with the user id is removed. The cursor stored under the user id is deleted, and every other key is kept. |
| Workspace.JoinThenLeave | src/context/ProjectContext.js:242-254 | Joining and then leaving removes the user as leaving alone would. |
| Workspace.ProjectWorkspace.OnProjectUsers | src/context/ProjectContext.js:256-258 | The server's list replaces the whole user list. |
| Workspace.ProjectWorkspace.OnFileCreated | src/context/ProjectContext.js:261-263 | The file is appended to the file list. |
| Workspace.ProjectWorkspace.OnFileDeleted | src/context/ProjectContext.js:265-270 | The id leaves the file list, and its tab is closed if it was open. |
| Workspace.Renamed | src/context/ProjectContext.js:272-279 | Only the name and language of entries with the matching id change. |
| Workspace.RenamedKeepsIds | src/context/ProjectContext.js:272-279 | A rename keeps every id. |
| Workspace.ProjectWorkspace.OnFileRenamed | src/context/ProjectContext.js:272-279 | Both lists are renamed; the active tab and all else are unchanged. |
| Workspace.ProjectWorkspace.OnExecutionComplete | src/context/ProjectContext.js:282-285 | The result is stored and the busy flag cleared. |
| Workspace.OpenThenClose | src/context/ProjectContext.js:110-124 | Opening a file that was not open and closing it again gives the tabs back. |
| TextBuffer.Split | src/components/CodeEditor.js:211-227 | A text always has at least one line. |
| TextBuffer.Join | src/components/CodeEditor.js:45 | `model.getValue()`: the lines separated by line feeds; one line is its own text. `JoinSplit` and `SplitJoin` make it the inverse of `Split`. |
| TextBuffer.JoinSplit | src/components/CodeEditor.js:211-227 | The lines of a text hold no line feed and join back to the text. |
| TextBuffer.SplitJoin | src/components/CodeEditor.js:211-227 | Splitting the text of a well-formed buffer gives the buffer back. |
| TextBuffer.Clamp | src/components/CodeEditor.js:213-218 | Monaco's position validation: the result lies in the buffer, and a valid 1-based position maps to itself, 0-based. |
| TextBuffer.Span | src/components/CodeEditor.js:213-218 | A range becomes two positions in the buffer, start before end. |
| TextBuffer.SpliceText | src/components/CodeEditor.js:220-224 | After a splice, the text is the text before the start, the inserted text, and the text after the end. |
| TextBuffer.SpliceWellFormed | src/components/CodeEditor.js:220-224 | A splice of well-formed lines is well formed. |
| TextBuffer.ApplyEdit | src/components/CodeEditor.js:220-224 | The new text is the old text before the range, the change's text, and the old text after the range. Lines before the range are untouched, and well-formedness is kept. |
| TextBuffer.ApplyChanges | src/components/CodeEditor.js:211-227 | Applying a list of changes in order keeps at least one line, and keeps a well-formed buffer well formed. |
| TextBuffer.ApplyChangesConcat | src/components/CodeEditor.js:211-227 | Applying `a + b` is applying `a` and then `b` to its result. |
| TextBuffer.FullRange | src/components/CodeEditor.js:174 | `getFullModelRange()` spans from the first position to the end of the last line. |
| TextBuffer.ReplaceFullRange | src/components/CodeEditor.js:173-176 | Replacing the full range of a buffer by a text leaves exactly that text's lines. |
| TextBuffer.CursorLandsAfterInsertion | src/components/CodeEditor.js:78-83 | After a suggestion of n lines is inserted at (L, C), the cursor is on line L+n-1. Its column is C plus the suggestion's length when n = 1. Otherwise it is the last line's length plus one. The text before the new cursor is the old text before (L, C) followed by the suggestion. |
| TextBuffer.CursorAfterInsert | src/components/CodeEditor.js:78-83 | A suggestion without a line feed moves the column right by its length on the same line. With line feeds, the new column is one past the text after the last line feed: that text holds no line feed and the character before it is one. |
| TextBuffer.CursorLine | src/components/CodeEditor.js:78-83 | The cursor moves down exactly one line per line feed in the suggestion. |
| TextBuffer.SplitCount | src/components/CodeEditor.js:78-83 | A text splits into one more line than it has line feeds. |
| TextBuffer.SplitLast | src/components/CodeEditor.js:78-83 | The last line of a text holds no line feed and ends the text. It is the whole text when there is one line, and it follows a line feed otherwise. |
| EditorSync.IsRemoteForFile | src/components/CodeEditor.js:204 | An event is handled only for the open file and from another socket. |
| EditorSync.ValidPosition | src/components/CodeEditor.js:44 | `editor.getPosition()` is always inside the model: the stored position is read back as a 1-based position in the buffer, and a position already inside it is returned unchanged. |
| EditorSync.Redecorate | src/components/CodeEditor.js:244-268 | The socket ends with exactly one decoration, the new one, at the end. Other sockets' decorations are kept, and socket ids stay unique. |
| EditorSync.LocalChangeAsWritten | src/components/CodeEditor.js:162-182 | The change broadcast as the code builds it: the new value, over the full range of the model after the edit. |
| EditorSync.AsWrittenLosesDeletion | src/components/CodeEditor.js:173-176 | A receiver holding "abc" that gets the broadcast change for an edit to "ab" still holds "abc", not "ab". |
| EditorSync.LocalChange | src/components/CodeEditor.js:162-182 | The corrected change: over the full range of the model before the edit, it turns that model into the new value's lines. |
| EditorSync.LocalChangeConverges | src/components/CodeEditor.js:162-182 | Every receiver whose buffer matched the sender's before the edit holds the new value afterwards. |
| EditorSync.PushEdits | src/components/CodeEditor.js:211-227 | The changes are applied one by one in list order: the buffer becomes `ApplyChanges` of the old one, and a well-formed buffer stays well formed. The texts returned are `EchoTexts`: after each change, the text of the buffer so far. |
| EditorSync.EchoTexts | src/components/CodeEditor.js:220-224 | One text per pushed change, in order: the i-th is the text after the first i+1 changes, and the last one is the text after the whole batch. |
| EditorSync.EchoTextsStep | src/components/CodeEditor.js:220-224 | One more change adds exactly the text after it to the echoes. |
| EditorSync.Echoes | src/components/CodeEditor.js:161-180 | One `code_change` per echoed text, in order, each the as-written full-range change for that text. |
| EditorSync.BatchOrder | src/components/CodeEditor.js:211-227 | One batch `a + b` leaves the buffer where two batches `a`, then `b`, leave it. |
| EditorSync.CodeEditor.constructor | src/components/CodeEditor.js:10-29 | The code is the file's content; not dirty, not saving, AI enabled, no decorations. |
| EditorSync.CodeEditor.Mount | src/components/CodeEditor.js:95-97 | The editor and Monaco become available; nothing else changes. |
| EditorSync.CodeEditor.SetFile | src/components/CodeEditor.js:32-37 | A file with a different id resets the code and buffer to its content and clears the dirty flag. Any other file prop leaves both. |
| EditorSync.CodeEditor.HandleEditorChange | src/components/CodeEditor.js:162-182 | The code and buffer become the value and the editor is dirty. With a socket, a project, a file and a model, exactly one change is emitted: the as-written `LocalChangeAsWritten`, the value over the full range of the model after the edit. Nothing else in the workspace changes. |
| EditorSync.CodeEditor.HandleCursorChange | src/components/CodeEditor.js:185-197 | `cursor_update` is emitted with the position only when there is a socket, a project and a file. |
| EditorSync.CodeEditor.HandleCodeUpdated | src/components/CodeEditor.js:161-228 | Acts only when the editor is mounted, with a socket and a file, and the event is for the open file from another socket. Then the batch is applied change by change, each against the previous result. Each pushed change fires `onChange`, which is `handleEditorChange`: with at least one change, the code is the buffer's text and the editor is dirty. With a project, one as-written `code_change` per pushed change is emitted, carrying the text after that change. An empty batch keeps the code and the dirty flag. Otherwise nothing changes. The rest of the workspace is unchanged. |
| EditorSync.CodeEditor.ApplyRemote | src/components/CodeEditor.js:161-227 | The buffer becomes `ApplyChanges` of the old one and the echoed texts are `EchoTexts` of it. With a change, the code is the last echoed text and the editor is dirty; an empty batch keeps both. |
| EditorSync.CodeEditor.HandleCursorMoved | src/components/CodeEditor.js:230-269 | For the open file from another socket, `cursors[socketId]` is upserted with all other keys unchanged, and the decorations become `Redecorate` of the old ones. Otherwise both are unchanged. |
| EditorSync.CodeEditor.HandleSave | src/components/CodeEditor.js:290-303 | Nothing happens without a file, without unsaved changes or while saving. Otherwise the code is saved: success replaces the content in the tabs and the file list, emits `file_save` (with a socket) and clears the dirty flag; failure or no project keeps all three. `isSaving` ends false. |
| EditorSync.CodeEditor.HandleRun | src/components/CodeEditor.js:306-314 | Nothing happens without a file or while executing. Otherwise the code runs in the file's language with empty input. |
| EditorSync.CodeEditor.HandleClose | src/components/CodeEditor.js:317-325 | A dirty editor closes its tab only on confirmation; a clean one closes it at once. Closing gives `AfterClose` of the tabs and emits `file_close` when there is a project; not closing changes nothing. |
| EditorSync.CodeEditor.ToggleAi | src/components/CodeEditor.js:373 | Completions are switched on or off. |
| EditorSync.CodeEditor.InsertCompletion | src/components/CodeEditor.js:40-92 | Runs only with AI enabled, no request loading and the editor mounted (the button passes `editorRef.current`, which is null before mount). A non-blank suggestion is inserted at the validated cursor and the buffer stays well formed. The insertion then has the effect of `HandleEditorChange` on the new text: the code is the buffer's text, the editor is dirty, and the as-written change is emitted under the same conditions. The cursor moves to `CursorAfterInsert` of that same validated position. Otherwise nothing changes. |
| Messages.Acceptable | src/pages/Chat.js:125-127 | A message is accepted only if it exists, has a sender, and has text or audio. |
| Messages.Receive | src/pages/Chat.js:125-139 | An acceptable message with a new id is appended at the end. Anything else leaves the list unchanged. Ids stay unique. |
| Messages.ReceiveAll | src/pages/Chat.js:101-150 | A stream of messages keeps ids unique. |
| Messages.ReceiveAllKeeps | src/pages/Chat.js:128-135 | A listed message stays listed. |
| Messages.ReceiveAllLists | src/pages/Chat.js:125-139 | Every acceptable message of a stream ends up listed. |
| Messages.ReceiveAllKnown | src/pages/Chat.js:128-135 | A stream of already-listed messages changes nothing. |
| Messages.ReceiveAllConcat | src/pages/Chat.js:101-150 | Receiving `a + b` is receiving `a`, then `b`. |
| Messages.RedeliveryIsHarmless | src/pages/Chat.js:128-135 | The same stream delivered twice leaves the list as one delivery left it. |
| Messages.PanelListsRedeliveryTwice | src/components/ChatPanel.js:37-39 | The project panel lists a message delivered twice, twice. |
| GlobalChat.ChatPage.constructor | src/pages/Chat.js:48-56 | No chats, no selection, no messages, no listener. |
| GlobalChat.ChatPage.FetchChats | src/pages/Chat.js:152-159 | The server's list replaces the chats; a failure changes nothing. |
| GlobalChat.ChatPage.FetchMessages | src/pages/Chat.js:161-168 | The server's history replaces the whole list; a failure keeps it. |
| GlobalChat.ChatPage.SelectChat | src/pages/Chat.js:88-99 | The previous chat's room is left and the new one's is joined, and its history is fetched. |
| GlobalChat.ChatPage.AutoSelect | src/pages/Chat.js:81-86 | When chats exist and none is selected, the first chat is selected. Otherwise nothing changes. |
| GlobalChat.ChatPage.RegisterListener | src/pages/Chat.js:101-112 | The listener is attached only when the flag is down, and the flag is then raised. |
| GlobalChat.ChatPage.CleanupListener | src/pages/Chat.js:146-147 | Detaches the listener and lowers the flag. |
| GlobalChat.ChatPage.OnMessage | src/pages/Chat.js:114-140 | While attached, the list becomes `Receive` of the old list; ids stay unique. |
| GlobalChat.ChatPage.SendMessage | src/pages/Chat.js:170-199 | A blank input posts nothing. Otherwise the text is posted to the selected chat. Success clears the input and does not list the message locally. |
| ProjectChat.GetChatId | src/components/ChatPanel.js:52-56 | No project or no chat gives none. A chat object gives its `_id`; a string gives itself, and an empty string counts as none. |
| ProjectChat.ChatPanel.constructor | src/components/ChatPanel.js:16-18 | No messages, an empty input, no listener and nothing posted. |
| ProjectChat.ChatPanel.OnProjectChanged | src/components/ChatPanel.js:21-66 | The previous room is left, and the new chat's room is joined when there is a socket. The list becomes `messages`, or [] when the response has none. A failure keeps the list. |
| ProjectChat.ChatPanel.OnNewMessage | src/components/ChatPanel.js:37-39 | While listening, the message is appended at the end, with no duplicate check. |
| ProjectChat.ChatPanel.SendMessage | src/components/ChatPanel.js:72-96 | Blank text or no chat id does nothing. Otherwise the text is posted. Success appends the response, clears the input and relays the message on the socket; failure changes nothing else. |
| FileTree.CompareNames | src/components/FileExplorer.js:135-139 | A three-way code-point comparison, zero exactly on equal names. |
| FileTree.Compare | src/components/FileExplorer.js:135-139 | Zero exactly when both entries have the same kind and name. Between a folder and a file, the folder sorts first. |
| FileTree.CompareNamesFlip | src/components/FileExplorer.js:135-139 | Swapping the arguments negates the comparison. |
| FileTree.CompareNamesTransitive | src/components/FileExplorer.js:135-139 | The name order is transitive. |
| FileTree.EntryLeTotal | src/components/FileExplorer.js:135-139 | The entry order is total. |
| FileTree.EntryLeTransitive | src/components/FileExplorer.js:135-139 | The entry order is transitive. |
| FileTree.Insert | src/components/FileExplorer.js:135-139 | Inserting into a sorted list keeps it sorted and adds exactly the entry. |
| FileTree.SortEntries | src/components/FileExplorer.js:135-139 | The result is sorted and is a permutation of the input. |
| FileTree.Children | src/components/FileExplorer.js:132-139 | Lists exactly the files whose parent is the given one, each as often as in the file list. Folders come before files, and names ascend within each kind. |
| FileTree.Rows | src/components/FileExplorer.js:132-176 | The rendered tree: a row per child, and under each expanded folder its subtree. Every row lies at the given level or deeper. |
| FileTree.RowsOf | src/components/FileExplorer.js:140-174 | The rows of a list of entries: each entry's row, then its subtree, then the rest. Every row lies at the given level or deeper. |
| FileTree.SubRows | src/components/FileExplorer.js:170-172 | The rows under an entry lie strictly deeper than it. |
| FileTree.RowsNested | src/components/FileExplorer.js:140-174 | The tree is properly nested. It starts at its level and never goes above it. Its top-level rows are children of the parent. From row to row the level rises by at most one. Each deeper row hangs under an earlier expanded folder one level up that is its parent, with no shallower row in between. |
| FileTree.RowsOfNested | src/components/FileExplorer.js:140-174 | The rows of any list of siblings are nested in the same sense. |
| FileTree.SubRowsNested | src/components/FileExplorer.js:170-172 | An entry's subtree is nested one level below it, under it as parent. It is empty unless the entry is an expanded folder, so a collapsed folder or a file adds no rows. |
| FileTree.NestedCons | src/components/FileExplorer.js:140-174 | An entry's row, its nested subtree and nested siblings make a nested sequence. |
| FileTree.NestedStep | src/components/FileExplorer.js:140-174 | In a nested sequence, the next row is at most one level deeper. When it is one level deeper, the row before it is an expanded folder and its parent. |
| FileTree.AtLevelConcat | src/components/FileExplorer.js:132-176 | Taking the rows at a level distributes over concatenation. |
| FileTree.AtLevelDeeper | src/components/FileExplorer.js:170-172 | Subtree rows lie one level deeper or more. |
| FileTree.RowsOfTopLevel | src/components/FileExplorer.js:132-176 | The top-level rows of a subtree are exactly its children, in order. |
| FileTree.TreeTopLevel | src/components/FileExplorer.js:132-176 | The root's rows at level 0 are exactly the sorted root children. |
| FileTree.Toggled | src/components/FileExplorer.js:45-51 | A present id is removed, an absent one is appended; no other id changes membership. |
| FileTree.ToggleTwice | src/components/FileExplorer.js:45-51 | Toggling twice restores membership. When the id was absent it restores the list exactly. |
| FileTree.Explorer.constructor | src/components/FileExplorer.js:37-42 | Only '/' is expanded; no menu, no selection, a closed create dialog, an empty name, no snackbar. |
| FileTree.Explorer.Tree | src/components/FileExplorer.js:132-176 | The top level of the tree is the sorted root children, and the whole tree is nested from level 0 under the root, as `RowsNested` states. |
| FileTree.Explorer.ToggleFolder | src/components/FileExplorer.js:45-51 | The expanded list becomes `Toggled` of the old one. |
| FileTree.Explorer.HandleFileClick | src/components/FileExplorer.js:68-74 | A folder is toggled and the workspace is unchanged. A file is opened as `OpenFile` opens it: an open tab is only activated; a file without content is taken from the fetch, and a failed fetch or no project changes nothing; a new tab is appended, activated and announced with `file_open`. The selection and the menu are unchanged. |
| FileTree.Explorer.HandleContextMenu | src/components/FileExplorer.js:54-61 | Opens the menu at the position over the entry. |
| FileTree.Explorer.CloseContextMenu | src/components/FileExplorer.js:63-65 | Closes the menu. |
| FileTree.Explorer.CloseSnackbar | src/components/FileExplorer.js:279 | Hides the snackbar. |
| FileTree.Explorer.OpenCreateDialog | src/components/FileExplorer.js:77-80 | Opens the dialog for a kind and parent, and closes the menu. |
| FileTree.Explorer.CloseCreateDialog | src/components/FileExplorer.js:82-85 | Resets the dialog to a closed 'file' dialog with no parent, and clears the name. |
| FileTree.Explorer.HandleCreateFile | src/components/FileExplorer.js:87-109 | A blank name shows "Please enter a name" and changes nothing. With no project or a failed POST, the file list is unchanged and the server message, or "Failed to create file" or "Failed to create folder", is shown. Success appends the created entry to the file list, shows "File created successfully!" or "Folder created successfully!" and resets the dialog. Tabs, emissions and the rest of the workspace are unchanged. |
| FileTree.Explorer.HandleDeleteFile | src/components/FileExplorer.js:112-129 | Nothing happens without a selection or without confirmation. With a project and a successful delete, the id leaves the file list. An open tab is closed as `AfterClose` closes it and `file_close` is emitted, so no tab has the id. Then "Deleted successfully!" shows and the menu closes. Otherwise the workspace is unchanged, the menu stays open and the server message or "Failed to delete" shows. The workspace stays valid. |
| ProjectList.CreateEnabled | src/pages/Projects.js:311 | The create button is enabled exactly when the trimmed name is not empty. |
| ProjectList.CloneSuggestion | src/pages/Projects.js:91 | The suggested clone name is exactly the name followed by " (Clone)": it starts with the name, ends with the suffix and has the length of both. |
| ProjectList.CreateThenDelete | src/pages/Projects.js:67-82 | Creating a project and deleting it gives the list back. |
| ProjectList.DeleteRemovesOne | src/pages/Projects.js:79-82 | With unique ids, a delete removes exactly the matching card and keeps the order of the rest. |
| ProjectList.ProjectsPage.constructor | src/pages/Projects.js:27-35 | No projects, loading, a closed dialog, the default form, no requests. |
| ProjectList.ProjectsPage.LoadProjects | src/pages/Projects.js:47-60 | The listing is requested. Success replaces the list; loading ends false either way. |
| ProjectList.ProjectsPage.OpenCreateDialog | src/pages/Projects.js:160 | Opens the dialog. |
| ProjectList.ProjectsPage.CancelCreateDialog | src/pages/Projects.js:307 | Closes the dialog. |
| ProjectList.ProjectsPage.EditForm | src/pages/Projects.js:266-298 | The form becomes the edited one. |
| ProjectList.ProjectsPage.ClickCreate | src/pages/Projects.js:62-74 | A disabled button sends nothing. Otherwise the form is posted; success prepends the card, closes the dialog and resets the form. |
| ProjectList.ProjectsPage.DeleteProject | src/pages/Projects.js:76-86 | Only after confirmation is the delete sent, and only on success is the id removed. |
| ProjectList.ProjectsPage.CloneProject | src/pages/Projects.js:88-106 | An empty or cancelled prompt sends nothing. Success prepends the clone; failure shows "Failed to clone project: " with the reason. |
| Terminal.Pick | src/components/Terminal.js:63-142 | Picked sections are among the kinds asked for, each with its non-empty field. |
| Terminal.PickComplete | src/components/Terminal.js:63-142 | Every asked kind with a non-empty field is picked. |
| Terminal.PickOrdered | src/components/Terminal.js:63-142 | Picking keeps the order of the kinds. |
| Terminal.Sections | src/components/Terminal.js:63-142 | Sections appear in the order Output, Error, System Error, Compilation. Each shows its field and is present exactly when that field is not empty. |
| Terminal.Metrics | src/components/Terminal.js:146-165 | The time line appears exactly when the time is defined. The memory line appears exactly when memory is reported and non-zero. A reported 0 renders as a stray "0" instead, and no memory field renders nothing. The local and mock notes appear exactly when their flags are set. All in source order. |
| Terminal.Mark | src/components/Terminal.js:55-59 | '✓' exactly when the status is "completed", and '✗' for every other status. |
| Terminal.Render | src/components/Terminal.js:16-182 | While executing, only the executing banner shows. With no output, the ready banner shows. Otherwise the result view shows with its status, mark, sections and metrics; the mark is '✗' when the status is not "completed". |
| Terminal.FailedRequestView | src/components/Terminal.js:63-142 | A failed request shows the error mark, no metrics, and at most one section: a System Error holding the failure text. |
| FileUrls.ApiUrl | src/utils/api.js:3 | The configured base URL when set and non-empty, else "http://localhost:5001". |
| FileUrls.GetFileUrl | src/utils/api.js:41-56 | An empty or missing path gives "", and a full URL is returned unchanged. A path starting with '/' is appended to the base URL; any other path follows a '/'. Every non-empty result ends with the path. |
| FileUrls.GetFileUrlIdempotent | src/utils/api.js:45-47 | With a full base URL, resolving a resolved path changes nothing. |
| FileUrls.DefaultResolutionIdempotent | src/utils/api.js:3 | With the default base URL, resolving twice is resolving once. |
| MediaTime.NatToString | src/components/AudioRecorder.js:175-176 | Decimal digits with no leading zero; one digit exactly below 10. |
| MediaTime.NatToStringValue | src/components/AudioRecorder.js:175-176 | The digits read back as the number. |
| MediaTime.PadTwo | src/components/AudioRecorder.js:176 | `padStart(2, '0')`: a shorter string is left-padded with zeros to two characters, and a longer one is kept. |
| MediaTime.PadTwoValue | src/components/AudioRecorder.js:176 | Padding keeps the value of one or two digits. |
| MediaTime.FormatTime | src/components/AudioRecorder.js:173-177 | An m:ss text: the minutes part is exactly the minutes' decimal digits, with no leading zero, and the two-digit part reads as seconds % 60. |
| MediaTime.FormatTimeParses | src/components/AudioMessage.js:34-38 | Parsing the text gives the seconds back. |
| MediaTime.FormatTimeInjective | src/components/AudioMessage.js:34-38 | Different lengths give different texts. |
| MediaTime.RoundToSeconds | src/components/AudioRecorder.js:160 | `Math.round(ms / 1000)`: the nearest whole second, halves up. |
| Recorder.AudioRecorder.constructor | src/components/AudioRecorder.js:25-38 | Not recording, not playing, no take, zero clocks, no error, not uploading. |
| Recorder.AudioRecorder.HasAudioElement | src/components/AudioRecorder.js:190-196 | The `<audio>` element is rendered only when no error replaces the recorder with its alert and a take has a URL (line 276). Play, pause and time updates act only then. |
| Recorder.UploadRefused | src/components/AudioRecorder.js:150-154 | The message of a refused upload: "Error uploading audio: ", then the status as decimal digits that read back as the status, then a space and the status text. |
| Recorder.AudioRecorder.StartRecording | src/components/AudioRecorder.js:51-86 | Without the microphone, only the error is set. With it, recording starts with no chunks and the clock runs. |
| Recorder.AudioRecorder.Tick | src/components/AudioRecorder.js:78-80 | While the interval runs, the duration follows the clock. |
| Recorder.AudioRecorder.OnDataAvailable | src/components/AudioRecorder.js:59-61 | The chunk is appended. |
| Recorder.AudioRecorder.OnRecorderStop | src/components/AudioRecorder.js:63-71 | The blob is made of every chunk, in order, and gets its URL. |
| Recorder.AudioRecorder.StopRecording | src/components/AudioRecorder.js:88-96 | Only a running recorder is stopped, together with its clock. |
| Recorder.AudioRecorder.SetPlaying | src/components/AudioRecorder.js:98-110 | Play and pause act only while the audio element exists. |
| Recorder.AudioRecorder.HandleTimeUpdate | src/components/AudioRecorder.js:179-183 | The position follows the element. |
| Recorder.AudioRecorder.HandleAudioEnded | src/components/AudioRecorder.js:185-188 | Playback stops at the start. |
| Recorder.AudioRecorder.DeleteRecording | src/components/AudioRecorder.js:112-121 | Clears the take and its URL, zeroes both clocks and stops playback. |
| Recorder.AudioRecorder.SendAudio | src/components/AudioRecorder.js:123-171 | Without a take, nothing happens. A missing token, upload failure, refused upload or send failure sets the error and keeps the take, its URL, both clocks and playback. Success sends the URL with the rounded length and deletes the take. Uploading ends false either way. |
| Recorder.AudioRecorder.DurationText | src/components/AudioRecorder.js:173-177 | The recording clock reads back as the whole seconds recorded. |
| Player.Progress | src/components/AudioMessage.js:258 | 0 when the duration is not positive, otherwise position / duration × 100. It lies in [0, 100] while the position is within the duration. |
| Player.AudioPlayer.constructor | src/components/AudioMessage.js:25-32 | Loading, not loaded, no error, not playing, at the start. |
| Player.AudioPlayer.HasAudioElement | src/components/AudioMessage.js:152-194 | The `<audio>` element is rendered only outside the error view, so play, pause, stop and time updates act only then. |
| Player.AudioPlayer.PlayEnabled | src/components/AudioMessage.js:226 | The play button is enabled exactly when the audio is loaded and not loading. |
| Player.AudioPlayer.StopEnabled | src/components/AudioMessage.js:241 | The stop button is enabled exactly when the audio is loaded, not loading and away from the start. |
| Player.AudioPlayer.LoadAudio | src/components/AudioMessage.js:41-76 | The resolved URL is fetched. Success keeps the object URL and leaves the player loaded; failure leaves it errored and not loaded. Loading ends false either way. The play button ends enabled exactly when the fetch succeeded; after a failure the stop button is disabled too. |
| Player.AudioPlayer.HandlePlay | src/components/AudioMessage.js:89-97 | Playback starts only with the element and an object URL. A rejected play raises the error. |
| Player.AudioPlayer.HandlePause | src/components/AudioMessage.js:99-104 | Pauses while the element exists. |
| Player.AudioPlayer.HandleStop | src/components/AudioMessage.js:106-113 | With the element, playback stops at the start. The stop button is then disabled. |
| Player.AudioPlayer.HandleTimeUpdate | src/components/AudioMessage.js:115-119 | The position follows the element. |
| Player.AudioPlayer.HandleLoadedMetadata | src/components/AudioMessage.js:121-126 | Loaded, not loading, no error. |
| Player.AudioPlayer.HandleCanPlay | src/components/AudioMessage.js:128-131 | Not loading, no error. |
| Player.AudioPlayer.HandleEnded | src/components/AudioMessage.js:133-136 | Playback stops at the start. The stop button is then disabled. |
| Player.AudioPlayer.HandleError | src/components/AudioMessage.js:138-143 | Not loading, errored, not loaded. |
| Player.AudioPlayer.ClearForRetry | src/components/AudioMessage.js:145-149 | Error cleared, loading, not loaded. |
| Player.AudioPlayer.HandleRetry | src/components/AudioMessage.js:145-150 | After clearing, the file is fetched again, with the outcomes of `LoadAudio`. |
| Player.AudioPlayer.PositionText | src/components/AudioMessage.js:34-38 | The clock text reads back as the whole seconds played. |
| ServiceWorker.Bypass | public/sw.js:18-22 | A request bypasses the worker exactly when its URL contains "/api/" or "socket.io", or its method is not GET. |
| ServiceWorker.ApiBypasses | public/sw.js:18-22 | Any URL with "/api/" in it bypasses, whatever the method. |
| ServiceWorker.HandleFetch | public/sw.js:16-31 | Passes bypassed requests through. Otherwise it answers with the network's response, and with the cache's match only when the network fails. |
| ServiceWorker.CacheUnusedOnline | public/sw.js:24-30 | While the network answers, the cache does not matter. |
| ServiceWorker.CachesToDelete | public/sw.js:38-44 | Exactly the caches not named "global-chat-v1". |
| ServiceWorker.CurrentCacheKept | public/sw.js:1 | "global-chat-v1" is never deleted. |
| ServiceWorker.Worker.Install | public/sw.js:4-13 | The current cache exists afterwards, created if absent. |
| ServiceWorker.Worker.Activate | public/sw.js:34-48 | Every other cache is deleted; only the current one survives. |
| Seqs.RemoveAll | src/context/ProjectContext.js:124 | `filter(x => key(x) !== k)`: exactly the elements with another key remain, and nothing with key `k`. An absent key changes nothing, and a present one shrinks the list. `RemoveAllConcat` gives the order. |
| Seqs.RemoveAllConcat | src/context/ProjectContext.js:124 | Filtering distributes over concatenation, so the kept elements keep their relative order. |
| Seqs.RemoveAllKeepsUnique | src/components/CodeEditor.js:247-249 | Removing by key keeps keys unique. |
| Outcomes.Describe | src/context/ProjectContext.js:228 | The server's message (`error.response?.data?.message`) when it is non-empty, otherwise `error.message`. It is empty only when both are. |
| JsStrings.Includes | public/sw.js:19-20 | `includes` holds exactly when the pattern occurs at some index. |
| JsStrings.Blank | src/pages/Chat.js:172 | `!s.trim()`: every character is one that `trim` removes, the WhiteSpace and LineTerminator characters of ECMAScript. The same guard is at ChatPanel.js:74, FileExplorer.js:88, Projects.js:311 and CodeEditor.js:61. |
| JsStrings.TrimStart | src/pages/Chat.js:172 | Dropping leading whitespace leaves a suffix that starts with a kept character; it is empty exactly when the string is blank. |
| JsStrings.TrimEnd | src/pages/Chat.js:172 | Dropping trailing whitespace leaves a prefix that ends with a kept character; it is empty exactly when the string is blank. |
| JsStrings.BlankIffTrimEmpty | src/pages/Chat.js:172 | A string is blank exactly when `trim` leaves the empty string. |

## Left out

- Socket connection setup and teardown, the Axios instance and its auth interceptor, `localStorage` and the authentication context are transport and storage I/O. Their results are `Outcome` parameters, and emissions are log entries.
- Interleaving: each `async` operation is modelled as atomic, so events arriving while a request awaits are not modelled.
- Monaco internals are library calls: decoration ids, version ids, and the registration of the completion provider and key bindings. Decoration ids are parameters.
- The AI completion request is not modelled; its reply is the `suggestion` parameter.
- EditorSync.CodeEditor.HandleCodeUpdated: every pushed change is taken to fire `onChange` exactly once, as the model's content-change event does for each `pushEditOperations`. Whether Monaco skips the event for an edit that changes no text is not modelled.
- InsertCompletion: the `cursor_update` that moving the cursor may trigger is not part of the call. The cursor listener is registered by an effect, and in the model it is the separate `HandleCursorChange` event.
- TextBuffer.Clamp, TextBuffer.Split and TextBuffer.CursorAfterInsert count lengths and columns in Unicode characters, whereas JavaScript's `length` and Monaco's columns count UTF-16 code units. A character outside the Basic Multilingual Plane (an emoji) is one column in the model and two in the editor.
- TextBuffer.Split breaks lines at "\n" only, as `split('\n')` does. Monaco's model also breaks at "\r\n" and "\r", so text with carriage returns is not modelled as the editor holds it.
- MediaRecorder, Blob, object URLs, `getUserMedia`, the audio element and the 100 ms `setInterval` are device I/O and timers. They appear as parameters: microphone access, chunks, URLs, elapsed time and play results.
- Chat.js `handleSendAudio` (src/pages/Chat.js:201-224), which posts a recorded message, is not modelled. The recorder's side of that call is modelled by `Recorder.AudioRecorder.SendAudio`.
- Floating point is left out: the memory KB `toFixed` text, percentages as decimals, and `Date.now()` seconds. Times are whole milliseconds, and the progress value is an exact ratio.
- Player.Progress: the value is a ratio `num/den`, not a float percentage.
- FileTree.Rows: recursion is bounded by a depth parameter. The source recurses without bound, which diverges on a cycle of expanded parents.
- FileTree.SortEntries: stability is not stated (on equal keys the order of entries is unspecified). `localeCompare` is modelled as code-point order, since locale collation is outside the model.
- Presentation with no state logic is left out: date formatting, layouts, the terminal resize, routing, theme, login and registration forms, the install prompt and download buttons.
- The UI's confirmation dialogs and prompts are parameters (`confirmed`, `cloneName`).
- Recorder.AudioRecorder.SendAudio: the upload's target URL is not modelled, and its response is a parameter. src/components/AudioRecorder.js:19 imports the default export of src/utils/api.js, which is the Axios instance (src/utils/api.js:59), not the base URL. So the URL built at src/components/AudioRecorder.js:140 is that instance's string form.
- EditorSync.CodeEditor.HandleSave and EditorSync.CodeEditor.HandleRun see the editor's current state. The Ctrl+S and Ctrl+Enter commands bound at mount (src/components/CodeEditor.js:100-101) keep the handlers of the first render, so through the keyboard they see the state at mount. That stale state is not modelled.

## Findings

| source | as written | input that shows it | evidently intended | confidence | as-written member | corrected member |
|---|---|---|---|---|---|---|
| src/components/CodeEditor.js:173-176 | A local edit is broadcast as one change over `getFullModelRange()` of the model AFTER the edit. Receivers still hold the text from before it. | The sender changes "abc" to "ab". The change covers (1,1)-(1,3), so a receiver holding "abc" replaces "ab" with "ab", keeps "abc", and loses the deletion. | The range should cover the receivers' current text (the model before the edit), so every receiver converges on the new value. | not executed | EditorSync.AsWrittenLosesDeletion | EditorSync.LocalChangeConverges |
