/** The project hub: derived status per project, when joining is offered, and
    the reflection form that submits completion proof. */
module ProjectsPage {
  import opened Wrappers
  import opened Text
  import opened ProjectTypes
  import ParticipationStore

  /** The join button is enabled only for a project shown as not joined. */
  predicate JoinEnabled(parts: seq<ProjectParticipation>, projectId: string) {
    ParticipationStore.StatusOf(parts, projectId) == NotJoined
  }

  /** On a list the store built, joining is offered exactly when joining would
      change the list. */
  lemma JoinEnabledIffEffective(parts: seq<ProjectParticipation>, projectId: string, now: string)
    requires ParticipationStore.Valid(parts)
    ensures JoinEnabled(parts, projectId) <==> ParticipationStore.JoinProject(parts, projectId, now) != parts
  {
    var r := ParticipationStore.JoinProject(parts, projectId, now);
    if !ParticipationStore.HasRecordFor(parts, projectId) {
      assert |r| == |parts| + 1;
    }
  }

  /** The reflection form: which project it is open for, and its text. */
  datatype ReflectionForm = ReflectionForm(activeProjectId: Option<string>, proofText: string)

  const ClosedForm: ReflectionForm := ReflectionForm(None, "")

  /** A submission is ignored without an active project (an empty id counts
      as none) or when the text is blank. */
  predicate Ignored(form: ReflectionForm) {
    form.activeProjectId.None? || form.activeProjectId.value == "" || Trim(form.proofText) == ""
  }

  datatype SubmitResult = SubmitResult(participation: seq<ProjectParticipation>, form: ReflectionForm)

  /** `handleSubmit`: unless ignored, completes the active project with the
      trimmed text as proof and clears the text. */
  function HandleSubmit(parts: seq<ProjectParticipation>, form: ReflectionForm,
                        joinedAt: string, completedAt: string): (r: SubmitResult)
    ensures Ignored(form) ==> r == SubmitResult(parts, form)
    ensures !Ignored(form) ==>
              && r.form == ReflectionForm(form.activeProjectId, "")
              && ParticipationStore.StatusOf(r.participation, form.activeProjectId.value) == Completed
              && ParticipationStore.GetParticipationFor(r.participation, form.activeProjectId.value).value.submittedProof
                 == Some(Trim(form.proofText))
    ensures !Ignored(form) ==>
              forall other :: other != form.activeProjectId.value ==>
                ParticipationStore.GetParticipationFor(r.participation, other)
                == ParticipationStore.GetParticipationFor(parts, other)
  {
    if Ignored(form) then SubmitResult(parts, form)
    else
      var id := form.activeProjectId.value;
      var proof := Trim(form.proofText);
      ParticipationStore.SubmitThenGet(parts, id, proof, joinedAt, completedAt, id);
      var next := ParticipationStore.SubmitProjectProof(parts, id, proof, joinedAt, completedAt);
      assert forall other :: other != id ==>
               ParticipationStore.GetParticipationFor(next, other) == ParticipationStore.GetParticipationFor(parts, other) by {
        forall other | other != id
          ensures ParticipationStore.GetParticipationFor(next, other) == ParticipationStore.GetParticipationFor(parts, other)
        {
          ParticipationStore.SubmitThenGet(parts, id, proof, joinedAt, completedAt, other);
        }
      }
      SubmitResult(next, ReflectionForm(form.activeProjectId, ""))
  }

  /** A stored proof is never blank and carries no surrounding whitespace. */
  lemma StoredProofIsTrimmed(parts: seq<ProjectParticipation>, form: ReflectionForm, joinedAt: string, completedAt: string)
    requires !Ignored(form)
    ensures var proof := ParticipationStore.GetParticipationFor(
              HandleSubmit(parts, form, joinedAt, completedAt).participation, form.activeProjectId.value).value.submittedProof.value;
            proof != "" && !IsSpace(proof[0]) && !IsSpace(proof[|proof| - 1])
  {
  }

  /** Opening the form for a project pre-fills its stored proof, or "" when
      it has none. */
  function OpenReflection(parts: seq<ProjectParticipation>, projectId: string): (r: ReflectionForm)
    ensures r.activeProjectId == Some(projectId)
    ensures && ParticipationStore.GetParticipationFor(parts, projectId).Some?
            && ParticipationStore.GetParticipationFor(parts, projectId).value.submittedProof.Some? ==>
              r.proofText == ParticipationStore.GetParticipationFor(parts, projectId).value.submittedProof.value
    ensures r.proofText != "" ==>
              && ParticipationStore.GetParticipationFor(parts, projectId).Some?
              && ParticipationStore.GetParticipationFor(parts, projectId).value.submittedProof == Some(r.proofText)
    ensures (|| ParticipationStore.GetParticipationFor(parts, projectId).None?
             || ParticipationStore.GetParticipationFor(parts, projectId).value.submittedProof.None?) ==> r.proofText == ""
  {
    var text :=
      match ParticipationStore.GetParticipationFor(parts, projectId)
      case Some(rec) => rec.submittedProof.GetOr("")
      case None => "";
    ReflectionForm(Some(projectId), text)
  }

  /** Reopening the form after a submission shows the trimmed reflection that
      was saved ("Update reflection"). */
  lemma ReopenShowsSavedReflection(parts: seq<ProjectParticipation>, form: ReflectionForm,
                                   joinedAt: string, completedAt: string)
    requires !Ignored(form)
    ensures OpenReflection(HandleSubmit(parts, form, joinedAt, completedAt).participation,
                           form.activeProjectId.value).proofText == Trim(form.proofText)
  {
  }
}
