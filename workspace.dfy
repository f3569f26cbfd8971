/** The project workspace of ProjectContext.js: the project's file list, the
    open tabs and the active tab, the users present in the project room, the
    remote cursors, and the state of the last code execution. REST calls are
    not performed: each operation receives their outcome as a parameter.
    Socket emissions are appended to `emitted`, and only when a socket exists. */
module Workspace {

  import opened Outcomes
  import opened Seqs
  import TextBuffer
  import Messages

  datatype FileKind = File | Folder

  /** A file or folder of a project. An empty `content` is JavaScript's falsy
      `file.content`, missing or empty. */
  datatype FileNode = FileNode(id: string, name: string, kind: FileKind, parent: Option<string>,
                               content: string, language: string)

  /** `project.chat`: absent, a populated chat object, or a bare chat id. */
  datatype ChatRef = NoChat | ChatObject(chatId: string) | ChatIdString(chatIdText: string)

  /** A project as `GET /projects/:id` returns it; `ownerId` is
      `owner._id || owner`, and `files` may be missing. */
  datatype Project = Project(id: string, ownerId: string, files: Option<seq<FileNode>>, chat: ChatRef)

  datatype ActiveUser = ActiveUser(userId: string, username: string)

  /** A remote cursor as the editor records it, under the sender's socket id. */
  datatype RemoteCursor = RemoteCursor(userId: string, username: string, line: int, column: int)

  /** The `output` object of an execution result; an empty field is a missing one. */
  datatype RunOutput = RunOutput(stdout: string, stderr: string, error: string, compileOutput: string)

  /** An execution result; a field the server left out is `None`. */
  datatype ExecResult = ExecResult(status: string, output: Option<RunOutput>, executionTime: Option<int>,
                                   memoryUsed: Option<int>, local: bool, mock: bool)

  /** The body of `POST /execute`. */
  datatype ExecRequest = ExecRequest(code: string, language: string, input: string,
                                     projectId: Option<string>, fileId: Option<string>)

  /** The events the client emits on its socket. */
  datatype Emission =
    | JoinProjectEvent(projectId: string, userId: string)
    | LeaveProjectEvent(projectId: string, userId: string)
    | FileOpen(projectId: string, fileId: string)
    | FileClose(projectId: string, fileId: string)
    | FileSave(projectId: string, fileId: string, content: string)
    | CodeChange(projectId: string, fileId: string, changes: seq<TextBuffer.Change>)
    | CursorUpdate(projectId: string, fileId: string, line: int, column: int)
    | ChatRoom(event: Messages.RoomEvent)
    | SendMessageEvent(message: Messages.Message)

  /** What `currentProject._id` throws when no project is loaded. */
  const NoProjectTypeError := Failure("", "Cannot read properties of null (reading '_id')")

  const NoProjectError := Failure("", "No project loaded. Please select a project first.")

  function FileId(f: FileNode): string { f.id }

  function UserIdOf(u: ActiveUser): string { u.userId }

  /** `files.map(f => f._id === id ? { ...f, content } : f)` */
  function WithContent(s: seq<FileNode>, id: string, content: string): (r: seq<FileNode>)
    ensures |r| == |s|
    ensures forall i :: 0 <= i < |s| ==> r[i] == (if s[i].id == id then s[i].(content := content) else s[i])
  {
    if |s| == 0 then [] else [if s[0].id == id then s[0].(content := content) else s[0]] + WithContent(s[1..], id, content)
  }

  /** `files.map(f => f._id === id ? { ...f, name, language } : f)` */
  function Renamed(s: seq<FileNode>, id: string, name: string, language: string): (r: seq<FileNode>)
    ensures |r| == |s|
    ensures forall i :: 0 <= i < |s| ==>
              r[i] == (if s[i].id == id then s[i].(name := name, language := language) else s[i])
  {
    if |s| == 0 then []
    else [if s[0].id == id then s[0].(name := name, language := language) else s[0]] + Renamed(s[1..], id, name, language)
  }

  /** The active tab, when there is one, is one of the open tabs. */
  predicate ActiveIsOpen(openFiles: seq<FileNode>, active: Option<string>)
  {
    active.Some? ==> HasKey(openFiles, FileId, active.value)
  }

  /** The tabs and the active tab after `closeFile(fileId)`: every tab with that
      id goes, and a closed active tab hands over to the last remaining one. */
  function AfterClose(openFiles: seq<FileNode>, active: Option<string>, fileId: string): (r: (seq<FileNode>, Option<string>))
    ensures r.0 == RemoveAll(openFiles, FileId, fileId)
    ensures active == Some(fileId) && |r.0| == 0 ==> r.1 == None
    ensures active == Some(fileId) && |r.0| > 0 ==> r.1 == Some(r.0[|r.0| - 1].id)
    ensures active != Some(fileId) ==> r.1 == active
    ensures ActiveIsOpen(openFiles, active) ==> ActiveIsOpen(r.0, r.1)
  {
    var remaining := RemoveAll(openFiles, FileId, fileId);
    if active == Some(fileId) then (remaining, LastKey(remaining, FileId))
    else
      assert ActiveIsOpen(openFiles, active) ==> ActiveIsOpen(remaining, active) by {
        if ActiveIsOpen(openFiles, active) && active.Some? {
          var i :| 0 <= i < |openFiles| && FileId(openFiles[i]) == active.value;
          assert openFiles[i] in remaining;
          var j :| 0 <= j < |remaining| && remaining[j] == openFiles[i];
        }
      }
      (remaining, active)
  }

  /** Saving twice with the same content is saving once. */
  lemma WithContentIdempotent(s: seq<FileNode>, id: string, content: string)
    ensures WithContent(WithContent(s, id, content), id, content) == WithContent(s, id, content)
  {
    var once := WithContent(s, id, content);
    var twice := WithContent(once, id, content);
    assert forall i :: 0 <= i < |s| ==> twice[i] == once[i];
  }

  /** A save changes contents only: the ids, and so which tabs are open, stay. */
  lemma WithContentKeepsIds(s: seq<FileNode>, id: string, content: string, k: string)
    ensures HasKey(WithContent(s, id, content), FileId, k) <==> HasKey(s, FileId, k)
  {
    var r := WithContent(s, id, content);
    if HasKey(s, FileId, k) {
      var i :| 0 <= i < |s| && FileId(s[i]) == k;
      assert FileId(r[i]) == k;
    }
    if HasKey(r, FileId, k) {
      var i :| 0 <= i < |r| && FileId(r[i]) == k;
      assert FileId(s[i]) == k;
    }
  }

  /** A rename changes names and languages only, so ids are kept. */
  lemma RenamedKeepsIds(s: seq<FileNode>, id: string, name: string, language: string, k: string)
    ensures HasKey(Renamed(s, id, name, language), FileId, k) <==> HasKey(s, FileId, k)
  {
    var r := Renamed(s, id, name, language);
    if HasKey(s, FileId, k) {
      var i :| 0 <= i < |s| && FileId(s[i]) == k;
      assert FileId(r[i]) == k;
    }
    if HasKey(r, FileId, k) {
      var i :| 0 <= i < |r| && FileId(r[i]) == k;
      assert FileId(s[i]) == k;
    }
  }

  /** Opening a file that was not open and closing it again gives the tabs back. */
  lemma OpenThenClose(openFiles: seq<FileNode>, f: FileNode)
    requires !HasKey(openFiles, FileId, f.id)
    ensures RemoveAll(openFiles + [f], FileId, f.id) == openFiles
  {
    RemoveAllConcat(openFiles, [f], FileId, f.id);
    var one: seq<FileNode> := [f];
    assert one[1..] == [];
  }

  /** A user who joins and then leaves is gone, and so is every earlier entry
      with the same user id. */
  lemma JoinThenLeave(users: seq<ActiveUser>, u: ActiveUser)
    ensures RemoveAll(users + [u], UserIdOf, u.userId) == RemoveAll(users, UserIdOf, u.userId)
  {
    RemoveAllConcat(users, [u], UserIdOf, u.userId);
    var one: seq<ActiveUser> := [u];
    assert one[1..] == [];
  }

  /** Two joins of the same user leave two entries: `user_joined` does not dedup. */
  lemma JoinTwiceListsTwice(users: seq<ActiveUser>, u: ActiveUser)
    requires !HasKey(users, UserIdOf, u.userId)
    ensures CountKey(users + [u] + [u], UserIdOf, u.userId) == 2
  {
    CountKeyConcat(users + [u], [u], UserIdOf, u.userId);
    CountKeyConcat(users, [u], UserIdOf, u.userId);
    var one: seq<ActiveUser> := [u];
    assert one[1..] == [];
  }

  /** The result stored when `POST /execute` rejects. */
  function ErrorResult(f: Failure): (r: ExecResult)
    ensures r.status == "error" && r.output == Some(RunOutput("", "", Describe(f), ""))
    ensures r.executionTime.None? && r.memoryUsed.None? && !r.local && !r.mock
  {
    ExecResult("error", Some(RunOutput("", "", Describe(f), "")), None, None, false, false)
  }

  class ProjectWorkspace {
    /** The socket's id while a socket exists (a token was found at start-up). */
    var socket: Option<string>
    var currentProject: Option<Project>
    var files: seq<FileNode>
    var openFiles: seq<FileNode>
    var activeFileId: Option<string>
    var activeUsers: seq<ActiveUser>
    /** Keyed by the socket id of the cursor's owner. */
    var cursors: map<string, RemoteCursor>
    var executionOutput: Option<ExecResult>
    var isExecuting: bool
    /** Every event emitted on the socket, oldest first. */
    var emitted: seq<Emission>
    /** Every `POST /execute` body sent, oldest first. */
    var executions: seq<ExecRequest>

    predicate Valid()
      reads this
    {
      ActiveIsOpen(openFiles, activeFileId)
    }

    /** The emission log `log` followed by `e`, when a socket exists. */
    function Emit(log: seq<Emission>, e: Emission): seq<Emission>
      reads this
    {
      if socket.Some? then log + [e] else log
    }

    constructor (socket: Option<string>)
      ensures this.socket == socket && currentProject == None
      ensures files == [] && openFiles == [] && activeFileId == None
      ensures activeUsers == [] && cursors == map[]
      ensures executionOutput == None && !isExecuting
      ensures emitted == [] && executions == []
      ensures Valid()
    {
      this.socket := socket;
      currentProject := None;
      files, openFiles, activeFileId := [], [], None;
      activeUsers, cursors := [], map[];
      executionOutput, isExecuting := None, false;
      emitted, executions := [], [];
    }

    /** Several events emitted in a row on the existing socket. */
    method EmitAll(events: seq<Emission>)
      modifies this
      ensures emitted == old(emitted) + events
      ensures socket == old(socket) && currentProject == old(currentProject)
      ensures files == old(files) && openFiles == old(openFiles)
      ensures activeFileId == old(activeFileId) && activeUsers == old(activeUsers)
      ensures cursors == old(cursors) && executionOutput == old(executionOutput)
      ensures isExecuting == old(isExecuting) && executions == old(executions)
    {
      emitted := emitted + events;
    }

    /** `loadProject`: on success the project and its files (or none) are
        loaded and the project room is joined; a failure changes nothing. */
    method LoadProject(projectId: string, response: Outcome<Project>) returns (res: Outcome<Project>)
      modifies this
      ensures res == response
      ensures response.Ok? ==> currentProject == Some(response.value)
      ensures response.Ok? ==> files == (if response.value.files.Some? then response.value.files.value else [])
      ensures response.Ok? ==> emitted == Emit(old(emitted), JoinProjectEvent(projectId, response.value.ownerId))
      ensures response.Err? ==> currentProject == old(currentProject) && files == old(files) && emitted == old(emitted)
      ensures socket == old(socket) && openFiles == old(openFiles) && activeFileId == old(activeFileId)
      ensures activeUsers == old(activeUsers) && cursors == old(cursors)
      ensures executionOutput == old(executionOutput) && isExecuting == old(isExecuting)
      ensures executions == old(executions)
    {
      res := response;
      if response.Ok? {
        var p := response.value;
        currentProject := Some(p);
        files := if p.files.Some? then p.files.value else [];
        emitted := Emit(emitted, JoinProjectEvent(projectId, p.ownerId));
      }
    }

    /** `leaveProject`: the room is left (when there is a socket and a project)
        and everything about the project is cleared; the execution state stays. */
    method LeaveProject()
      modifies this
      ensures currentProject == None && files == [] && openFiles == [] && activeFileId == None
      ensures activeUsers == [] && cursors == map[]
      ensures emitted == (if old(currentProject).Some?
                          then Emit(old(emitted), LeaveProjectEvent(old(currentProject).value.id, old(currentProject).value.ownerId))
                          else old(emitted))
      ensures socket == old(socket) && executionOutput == old(executionOutput) && isExecuting == old(isExecuting)
      ensures executions == old(executions)
      ensures Valid()
    {
      if currentProject.Some? {
        emitted := Emit(emitted, LeaveProjectEvent(currentProject.value.id, currentProject.value.ownerId));
      }
      currentProject := None;
      files, openFiles, activeFileId := [], [], None;
      activeUsers, cursors := [], map[];
    }

    /** `openFile`: an open file is only activated. Otherwise a file without
        content is fetched first (a failed fetch, or no project to fetch it
        from, ends the call with nothing changed), then appended as a tab and
        activated, and `file_open` is emitted. */
    method OpenFile(file: FileNode, fetched: Outcome<FileNode>)
      modifies this
      ensures HasKey(old(openFiles), FileId, file.id) ==>
                openFiles == old(openFiles) && activeFileId == Some(file.id) && emitted == old(emitted)
      ensures !HasKey(old(openFiles), FileId, file.id) && file.content == "" && (currentProject.None? || fetched.Err?) ==>
                openFiles == old(openFiles) && activeFileId == old(activeFileId) && emitted == old(emitted)
      ensures !HasKey(old(openFiles), FileId, file.id) && (file.content != "" || (currentProject.Some? && fetched.Ok?)) ==>
                var tab := if file.content != "" then file else fetched.value;
                openFiles == old(openFiles) + [tab] && activeFileId == Some(tab.id) &&
                emitted == (if currentProject.Some? then Emit(old(emitted), FileOpen(currentProject.value.id, tab.id)) else old(emitted))
      ensures socket == old(socket) && currentProject == old(currentProject) && files == old(files)
      ensures activeUsers == old(activeUsers) && cursors == old(cursors)
      ensures executionOutput == old(executionOutput) && isExecuting == old(isExecuting)
      ensures executions == old(executions)
      ensures old(Valid()) ==> Valid()
    {
      if HasKey(openFiles, FileId, file.id) {
        activeFileId := Some(file.id);
        return;
      }
      var tab := file;
      if file.content == "" {
        if currentProject.None? || fetched.Err? {
          return;
        }
        tab := fetched.value;
      }
      openFiles := openFiles + [tab];
      assert FileId((openFiles)[|openFiles| - 1]) == tab.id;
      activeFileId := Some(tab.id);
      if currentProject.Some? {
        emitted := Emit(emitted, FileOpen(currentProject.value.id, tab.id));
      }
    }

    /** `closeFile`: every tab with the id closes, and `file_close` is emitted. */
    method CloseFile(fileId: string)
      modifies this
      ensures (openFiles, activeFileId) == AfterClose(old(openFiles), old(activeFileId), fileId)
      ensures emitted == (if currentProject.Some? then Emit(old(emitted), FileClose(currentProject.value.id, fileId)) else old(emitted))
      ensures socket == old(socket) && currentProject == old(currentProject) && files == old(files)
      ensures activeUsers == old(activeUsers) && cursors == old(cursors)
      ensures executionOutput == old(executionOutput) && isExecuting == old(isExecuting)
      ensures executions == old(executions)
      ensures old(Valid()) ==> Valid()
    {
      var r := AfterClose(openFiles, activeFileId, fileId);
      openFiles, activeFileId := r.0, r.1;
      if currentProject.Some? {
        emitted := Emit(emitted, FileClose(currentProject.value.id, fileId));
      }
    }

    /** `saveFile`: after a successful PUT the content is replaced on every
        entry with that id, in the tabs and in the file list, and `file_save`
        is emitted; a failure (or no project) changes nothing and is rethrown. */
    method SaveFile(fileId: string, content: string, put: Outcome<()>) returns (res: Outcome<()>)
      modifies this
      ensures currentProject.None? ==> res == Err(NoProjectTypeError)
      ensures currentProject.Some? ==> res == put
      ensures res.Ok? ==> openFiles == WithContent(old(openFiles), fileId, content) &&
                          files == WithContent(old(files), fileId, content) &&
                          emitted == Emit(old(emitted), FileSave(currentProject.value.id, fileId, content))
      ensures res.Err? ==> openFiles == old(openFiles) && files == old(files) && emitted == old(emitted)
      ensures socket == old(socket) && currentProject == old(currentProject) && activeFileId == old(activeFileId)
      ensures activeUsers == old(activeUsers) && cursors == old(cursors)
      ensures executionOutput == old(executionOutput) && isExecuting == old(isExecuting)
      ensures executions == old(executions)
      ensures old(Valid()) ==> Valid()
    {
      if currentProject.None? {
        return Err(NoProjectTypeError);
      }
      res := put;
      if put.Ok? {
        if activeFileId.Some? {
          WithContentKeepsIds(openFiles, fileId, content, activeFileId.value);
        }
        openFiles := WithContent(openFiles, fileId, content);
        files := WithContent(files, fileId, content);
        emitted := Emit(emitted, FileSave(currentProject.value.id, fileId, content));
      }
    }

    /** `createFile`: refused without a project; otherwise the created file is
        appended to the file list once the POST succeeds. */
    method CreateFile(name: string, kind: FileKind, parent: Option<string>, post: Outcome<FileNode>)
      returns (res: Outcome<FileNode>)
      modifies this
      ensures currentProject.None? ==> res == Err(NoProjectError)
      ensures currentProject.Some? ==> res == post
      ensures res.Ok? ==> files == old(files) + [res.value]
      ensures res.Err? ==> files == old(files)
      ensures socket == old(socket) && currentProject == old(currentProject)
      ensures openFiles == old(openFiles) && activeFileId == old(activeFileId)
      ensures activeUsers == old(activeUsers) && cursors == old(cursors)
      ensures executionOutput == old(executionOutput) && isExecuting == old(isExecuting)
      ensures emitted == old(emitted) && executions == old(executions)
    {
      if currentProject.None? {
        return Err(NoProjectError);
      }
      res := post;
      if post.Ok? {
        files := files + [post.value];
      }
    }

    /** `deleteFile`: after a successful DELETE the id leaves the file list and
        its tab, if open, is closed; a failure (or no project) changes nothing. */
    method DeleteFile(fileId: string, del: Outcome<()>) returns (res: Outcome<()>)
      modifies this
      ensures currentProject.None? ==> res == Err(NoProjectTypeError)
      ensures currentProject.Some? ==> res == del
      ensures res.Ok? ==> files == RemoveAll(old(files), FileId, fileId)
      ensures res.Ok? && HasKey(old(openFiles), FileId, fileId) ==>
                (openFiles, activeFileId) == AfterClose(old(openFiles), old(activeFileId), fileId) &&
                emitted == Emit(old(emitted), FileClose(currentProject.value.id, fileId))
      ensures res.Err? || !HasKey(old(openFiles), FileId, fileId) ==>
                openFiles == old(openFiles) && activeFileId == old(activeFileId) && emitted == old(emitted)
      ensures res.Err? ==> files == old(files)
      ensures res.Ok? ==> !HasKey(openFiles, FileId, fileId)
      ensures socket == old(socket) && currentProject == old(currentProject)
      ensures activeUsers == old(activeUsers) && cursors == old(cursors)
      ensures executionOutput == old(executionOutput) && isExecuting == old(isExecuting)
      ensures executions == old(executions)
      ensures old(Valid()) ==> Valid()
    {
      if currentProject.None? {
        return Err(NoProjectTypeError);
      }
      res := del;
      if del.Ok? {
        files := RemoveAll(files, FileId, fileId);
        if HasKey(openFiles, FileId, fileId) {
          CloseFile(fileId);
        }
      }
    }

    /** The start of `executeCode`: busy, and the previous output cleared. */
    method StartExecution(code: string, language: string, input: string)
      modifies this
      ensures isExecuting && executionOutput == None
      ensures executions == old(executions) + [ExecRequest(code, language, input,
                                 if currentProject.Some? then Some(currentProject.value.id) else None, activeFileId)]
      ensures socket == old(socket) && currentProject == old(currentProject) && files == old(files)
      ensures openFiles == old(openFiles) && activeFileId == old(activeFileId)
      ensures activeUsers == old(activeUsers) && cursors == old(cursors) && emitted == old(emitted)
    {
      isExecuting := true;
      executionOutput := None;
      executions := executions + [ExecRequest(code, language, input,
                       if currentProject.Some? then Some(currentProject.value.id) else None, activeFileId)];
    }

    /** The end of `executeCode`: the response, or an error result built from
        the failure, is stored and the busy flag cleared either way. */
    method FinishExecution(response: Outcome<ExecResult>) returns (res: Outcome<ExecResult>)
      modifies this
      ensures res == response && !isExecuting
      ensures response.Ok? ==> executionOutput == Some(response.value)
      ensures response.Err? ==> executionOutput == Some(ErrorResult(response.failure))
      ensures socket == old(socket) && currentProject == old(currentProject) && files == old(files)
      ensures openFiles == old(openFiles) && activeFileId == old(activeFileId)
      ensures activeUsers == old(activeUsers) && cursors == old(cursors)
      ensures emitted == old(emitted) && executions == old(executions)
    {
      res := response;
      if response.Ok? {
        executionOutput := Some(response.value);
      } else {
        executionOutput := Some(ErrorResult(response.failure));
      }
      isExecuting := false;
    }

    /** `executeCode` with no event handled while the request is out. */
    method ExecuteCode(code: string, language: string, input: string, response: Outcome<ExecResult>)
      returns (res: Outcome<ExecResult>)
      modifies this
      ensures res == response && !isExecuting
      ensures response.Ok? ==> executionOutput == Some(response.value)
      ensures response.Err? ==> executionOutput == Some(ErrorResult(response.failure)) &&
                                executionOutput.value.status == "error"
      ensures executions == old(executions) + [ExecRequest(code, language, input,
                                 if currentProject.Some? then Some(currentProject.value.id) else None, activeFileId)]
      ensures socket == old(socket) && currentProject == old(currentProject) && files == old(files)
      ensures openFiles == old(openFiles) && activeFileId == old(activeFileId)
      ensures activeUsers == old(activeUsers) && cursors == old(cursors) && emitted == old(emitted)
    {
      StartExecution(code, language, input);
      res := FinishExecution(response);
    }

    /** `user_joined`: the user is appended, with no duplicate check. */
    method OnUserJoined(userId: string, username: string)
      modifies this
      ensures activeUsers == old(activeUsers) + [ActiveUser(userId, username)]
      ensures socket == old(socket) && currentProject == old(currentProject) && files == old(files)
      ensures openFiles == old(openFiles) && activeFileId == old(activeFileId) && cursors == old(cursors)
      ensures executionOutput == old(executionOutput) && isExecuting == old(isExecuting)
      ensures emitted == old(emitted) && executions == old(executions)
    {
      activeUsers := activeUsers + [ActiveUser(userId, username)];
    }

    /** `user_left`: every entry of the user goes, and so does the cursor
        stored under the user id (cursors are stored under socket ids, so
        the user's cursor normally stays). */
    method OnUserLeft(userId: string)
      modifies this
      ensures activeUsers == RemoveAll(old(activeUsers), UserIdOf, userId)
      ensures cursors == old(cursors) - {userId}
      ensures forall k :: k in old(cursors) && k != userId ==> k in cursors && cursors[k] == old(cursors)[k]
      ensures socket == old(socket) && currentProject == old(currentProject) && files == old(files)
      ensures openFiles == old(openFiles) && activeFileId == old(activeFileId)
      ensures executionOutput == old(executionOutput) && isExecuting == old(isExecuting)
      ensures emitted == old(emitted) && executions == old(executions)
    {
      activeUsers := RemoveAll(activeUsers, UserIdOf, userId);
      cursors := cursors - {userId};
    }

    /** `project_users`: the server's list replaces the local one. */
    method OnProjectUsers(users: seq<ActiveUser>)
      modifies this
      ensures activeUsers == users
      ensures socket == old(socket) && currentProject == old(currentProject) && files == old(files)
      ensures openFiles == old(openFiles) && activeFileId == old(activeFileId) && cursors == old(cursors)
      ensures executionOutput == old(executionOutput) && isExecuting == old(isExecuting)
      ensures emitted == old(emitted) && executions == old(executions)
    {
      activeUsers := users;
    }

    /** `file_created`: the file is appended to the file list. */
    method OnFileCreated(file: FileNode)
      modifies this
      ensures files == old(files) + [file]
      ensures socket == old(socket) && currentProject == old(currentProject)
      ensures openFiles == old(openFiles) && activeFileId == old(activeFileId)
      ensures activeUsers == old(activeUsers) && cursors == old(cursors)
      ensures executionOutput == old(executionOutput) && isExecuting == old(isExecuting)
      ensures emitted == old(emitted) && executions == old(executions)
    {
      files := files + [file];
    }

    /** `file_deleted`: as a successful `deleteFile`, without the request. */
    method OnFileDeleted(fileId: string)
      modifies this
      ensures files == RemoveAll(old(files), FileId, fileId)
      ensures HasKey(old(openFiles), FileId, fileId) ==>
                (openFiles, activeFileId) == AfterClose(old(openFiles), old(activeFileId), fileId) &&
                emitted == (if currentProject.Some? then Emit(old(emitted), FileClose(currentProject.value.id, fileId)) else old(emitted))
      ensures !HasKey(old(openFiles), FileId, fileId) ==>
                openFiles == old(openFiles) && activeFileId == old(activeFileId) && emitted == old(emitted)
      ensures !HasKey(openFiles, FileId, fileId)
      ensures socket == old(socket) && currentProject == old(currentProject)
      ensures activeUsers == old(activeUsers) && cursors == old(cursors)
      ensures executionOutput == old(executionOutput) && isExecuting == old(isExecuting)
      ensures executions == old(executions)
      ensures old(Valid()) ==> Valid()
    {
      files := RemoveAll(files, FileId, fileId);
      if HasKey(openFiles, FileId, fileId) {
        CloseFile(fileId);
      }
    }

    /** `file_renamed`: name and language change on the matching entries of
        both lists, nothing else does. */
    method OnFileRenamed(fileId: string, newName: string, language: string)
      modifies this
      ensures files == Renamed(old(files), fileId, newName, language)
      ensures openFiles == Renamed(old(openFiles), fileId, newName, language)
      ensures socket == old(socket) && currentProject == old(currentProject) && activeFileId == old(activeFileId)
      ensures activeUsers == old(activeUsers) && cursors == old(cursors)
      ensures executionOutput == old(executionOutput) && isExecuting == old(isExecuting)
      ensures emitted == old(emitted) && executions == old(executions)
      ensures old(Valid()) ==> Valid()
    {
      if activeFileId.Some? {
        RenamedKeepsIds(openFiles, fileId, newName, language, activeFileId.value);
      }
      files := Renamed(files, fileId, newName, language);
      openFiles := Renamed(openFiles, fileId, newName, language);
    }

    /** `execution_complete`: the result is stored and the busy flag cleared. */
    method OnExecutionComplete(data: ExecResult)
      modifies this
      ensures executionOutput == Some(data) && !isExecuting
      ensures socket == old(socket) && currentProject == old(currentProject) && files == old(files)
      ensures openFiles == old(openFiles) && activeFileId == old(activeFileId)
      ensures activeUsers == old(activeUsers) && cursors == old(cursors)
      ensures emitted == old(emitted) && executions == old(executions)
    {
      executionOutput := Some(data);
      isExecuting := false;
    }
  }
}
