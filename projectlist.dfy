/** The project list page of Projects.js: the loaded projects, the loading
    flag, the create dialog and its form, and the create, delete and clone
    actions, each of which updates the list only after its request succeeds. */
module ProjectList {

  import opened Outcomes
  import opened Seqs
  import opened JsStrings

  /** A project as the list shows it. */
  datatype ProjectCard = ProjectCard(id: string, name: string)

  /** The create form: `{ name, description, language, visibility }`. */
  datatype ProjectForm = ProjectForm(name: string, description: string, language: string, visibility: string)

  const DefaultForm := ProjectForm("", "", "javascript", "private")

  /** The requests the page sends, oldest first. */
  datatype Request =
    | ListRequest
    | CreateRequest(form: ProjectForm)
    | DeleteRequest(projectId: string)
    | CloneRequest(projectId: string, cloneName: string, visibility: string)

  function CardId(p: ProjectCard): string { p.id }

  /** The create button is enabled exactly when the trimmed name is non-empty. */
  predicate CreateEnabled(form: ProjectForm)
  {
    !Blank(form.name)
  }

  /** The suggested clone name of the prompt. */
  function CloneSuggestion(name: string): (r: string)
    ensures StartsWith(r, name) && EndsWith(r, " (Clone)")
    ensures |r| == |name| + |" (Clone)"| && r[..|name|] == name && r[|name|..] == " (Clone)"
  {
    var r := name + " (Clone)";
    StartsWithConcat(name, " (Clone)", name);
    EndsWithConcat(name, " (Clone)");
    r
  }

  /** Prepending a project that was not listed and deleting it again gives
      the list back. */
  lemma CreateThenDelete(projects: seq<ProjectCard>, p: ProjectCard)
    requires !HasKey(projects, CardId, p.id)
    ensures RemoveAll([p] + projects, CardId, p.id) == projects
  {
    RemoveAllConcat([p], projects, CardId, p.id);
    var one: seq<ProjectCard> := [p];
    assert one[1..] == [];
  }

  /** With unique ids, deleting the project at `i` removes it alone and keeps
      the rest in their order. */
  lemma DeleteRemovesOne(projects: seq<ProjectCard>, i: nat)
    requires UniqueKeys(projects, CardId) && i < |projects|
    ensures RemoveAll(projects, CardId, projects[i].id) == projects[..i] + projects[i + 1..]
  {
    RemoveUniqueAt(projects, CardId, i);
  }

  class ProjectsPage {
    var projects: seq<ProjectCard>
    var loading: bool
    var createDialogOpen: bool
    var form: ProjectForm
    var requests: seq<Request>
    /** The text of the last `alert`, if any. */
    var alertText: Option<string>

    constructor ()
      ensures projects == [] && loading && !createDialogOpen && form == DefaultForm
      ensures requests == [] && alertText == None
    {
      projects, loading, createDialogOpen, form := [], true, false, DefaultForm;
      requests, alertText := [], None;
    }

    /** `loadProjects`: the list is requested; on success it replaces the
        projects; either way the page stops loading. */
    method LoadProjects(response: Outcome<seq<ProjectCard>>)
      modifies this
      ensures requests == old(requests) + [ListRequest]
      ensures projects == (if response.Ok? then response.value else old(projects))
      ensures !loading
      ensures createDialogOpen == old(createDialogOpen) && form == old(form) && alertText == old(alertText)
    {
      loading := true;
      requests := requests + [ListRequest];
      if response.Ok? {
        projects := response.value;
      }
      loading := false;
    }

    method OpenCreateDialog()
      modifies this
      ensures createDialogOpen
      ensures projects == old(projects) && loading == old(loading) && form == old(form)
      ensures requests == old(requests) && alertText == old(alertText)
    {
      createDialogOpen := true;
    }

    method CancelCreateDialog()
      modifies this
      ensures !createDialogOpen
      ensures projects == old(projects) && loading == old(loading) && form == old(form)
      ensures requests == old(requests) && alertText == old(alertText)
    {
      createDialogOpen := false;
    }

    /** Typing into the form. */
    method EditForm(f: ProjectForm)
      modifies this
      ensures form == f
      ensures projects == old(projects) && loading == old(loading) && createDialogOpen == old(createDialogOpen)
      ensures requests == old(requests) && alertText == old(alertText)
    {
      form := f;
    }

    /** The create button: disabled with a blank name; otherwise
        `handleCreateProject` posts the form, and on success the new project
        goes first, the dialog closes and the form is reset. */
    method ClickCreate(response: Outcome<ProjectCard>)
      modifies this
      ensures !CreateEnabled(old(form)) ==>
                requests == old(requests) && projects == old(projects) &&
                createDialogOpen == old(createDialogOpen) && form == old(form)
      ensures CreateEnabled(old(form)) ==> requests == old(requests) + [CreateRequest(old(form))]
      ensures CreateEnabled(old(form)) && response.Ok? ==>
                projects == [response.value] + old(projects) && !createDialogOpen && form == DefaultForm
      ensures CreateEnabled(old(form)) && response.Err? ==>
                projects == old(projects) && createDialogOpen == old(createDialogOpen) && form == old(form)
      ensures loading == old(loading) && alertText == old(alertText)
    {
      if !CreateEnabled(form) {
        return;
      }
      requests := requests + [CreateRequest(form)];
      if response.Ok? {
        projects := [response.value] + projects;
        createDialogOpen := false;
        form := DefaultForm;
      }
    }

    /** `handleDeleteProject`: only after confirmation is the DELETE sent,
        and only its success removes the project from the list. */
    method DeleteProject(projectId: string, confirmed: bool, response: Outcome<()>)
      modifies this
      ensures !confirmed ==> requests == old(requests) && projects == old(projects)
      ensures confirmed ==> requests == old(requests) + [DeleteRequest(projectId)]
      ensures confirmed && response.Ok? ==> projects == RemoveAll(old(projects), CardId, projectId)
      ensures confirmed && response.Err? ==> projects == old(projects)
      ensures loading == old(loading) && createDialogOpen == old(createDialogOpen)
      ensures form == old(form) && alertText == old(alertText)
    {
      if !confirmed {
        return;
      }
      requests := requests + [DeleteRequest(projectId)];
      if response.Ok? {
        projects := RemoveAll(projects, CardId, projectId);
      }
    }

    /** `handleCloneProject`: a cancelled (`null`) or empty prompt sends
        nothing; otherwise a private clone is requested, and its success puts
        the clone first while its failure raises an alert with the server's or
        the transport's message. */
    method CloneProject(projectId: string, cloneName: Option<string>, response: Outcome<ProjectCard>)
      modifies this
      ensures cloneName.None? || cloneName.value == "" ==>
                requests == old(requests) && projects == old(projects) && alertText == old(alertText)
      ensures cloneName.Some? && cloneName.value != "" ==>
                requests == old(requests) + [CloneRequest(projectId, cloneName.value, "private")]
      ensures cloneName.Some? && cloneName.value != "" && response.Ok? ==>
                projects == [response.value] + old(projects) && alertText == old(alertText)
      ensures cloneName.Some? && cloneName.value != "" && response.Err? ==>
                projects == old(projects) && alertText == Some("Failed to clone project: " + Describe(response.failure))
      ensures loading == old(loading) && createDialogOpen == old(createDialogOpen) && form == old(form)
    {
      if cloneName.None? || cloneName.value == "" {
        return;
      }
      requests := requests + [CloneRequest(projectId, cloneName.value, "private")];
      if response.Ok? {
        projects := [response.value] + projects;
      } else {
        alertText := Some("Failed to clone project: " + Describe(response.failure));
      }
    }
  }
}
