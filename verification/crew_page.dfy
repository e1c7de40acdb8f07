/** The dashboard's Crew page: the roster filtered by section, the status tiles, and the
    relocate dialog. */
module CrewPage {
  import opened Wrappers
  import opened Seqs
  import opened ApiCalls

  datatype CrewStatus = Active | OnLeave | OffDuty | InTransit

  datatype CrewMember = CrewMember(id: int, name: string, sectionId: int, status: CrewStatus)

  datatype Section = Section(id: int, name: string, currentOccupancy: int, maxCapacity: int)

  const LoadFailed: string := "Failed to load crew data"
  const RelocateFailed: string := "Failed to relocate crew member"

  /** A section id is truthy when present and non-zero; 0 selects nothing. */
  predicate IsChosen(id: Option<int>) {
    id.Some? && id.value != 0
  }

  // ---------------------------------------------------------------------------------------
  // Derived values
  // ---------------------------------------------------------------------------------------

  /** `filteredCrew`: the whole roster when no section is chosen, otherwise the members of the
      chosen section. */
  function FilteredCrew(crew: seq<CrewMember>, selected: Option<int>): (r: seq<CrewMember>)
    ensures !IsChosen(selected) ==> r == crew
    ensures IsChosen(selected) ==> forall c :: c in r <==> c in crew && c.sectionId == selected.value
    ensures IsChosen(selected) ==>
      forall c :: multiset(r)[c] == if c.sectionId == selected.value then multiset(crew)[c] else 0
  {
    if IsChosen(selected) then
      var r := Filter(crew, (c: CrewMember) => c.sectionId == selected.value);
      assert forall c :: multiset(r)[c] == if c.sectionId == selected.value then multiset(crew)[c] else 0 by {
        forall c {
          FilterMultiplicity(crew, (c: CrewMember) => c.sectionId == selected.value, c);
        }
      }
      r
    else crew
  }

  /** Filtering keeps roster order: members from an earlier stretch of the roster are listed
      before members from a later one. */
  lemma FilteredCrewKeepsOrder(front: seq<CrewMember>, back: seq<CrewMember>, selected: Option<int>)
    ensures FilteredCrew(front + back, selected) == FilteredCrew(front, selected) + FilteredCrew(back, selected)
  {
    if IsChosen(selected) {
      FilterAppend(front, back, (c: CrewMember) => c.sectionId == selected.value);
    }
  }

  /** A section can take a relocated member when it is not the member's own and is not full. */
  predicate CanReceive(s: Section, member: CrewMember) {
    s.id != member.sectionId && s.currentOccupancy < s.maxCapacity
  }

  /** `availableSectionsForRelocate`. */
  function AvailableSectionsForRelocate(sections: seq<Section>, relocating: Option<CrewMember>): (r: seq<Section>)
    ensures relocating.None? ==> r == []
    ensures relocating.Some? ==> forall s :: s in r <==> s in sections && CanReceive(s, relocating.value)
    ensures relocating.Some? ==>
      forall s :: multiset(r)[s] == if CanReceive(s, relocating.value) then multiset(sections)[s] else 0
  {
    match relocating
    case None => []
    case Some(m) =>
      var r := Filter(sections, (s: Section) => CanReceive(s, m));
      assert forall s :: multiset(r)[s] == if CanReceive(s, m) then multiset(sections)[s] else 0 by {
        forall s {
          FilterMultiplicity(sections, (s: Section) => CanReceive(s, m), s);
        }
      }
      r
  }

  /** The destination buttons keep the order of the section list. */
  lemma AvailableSectionsKeepOrder(front: seq<Section>, back: seq<Section>, relocating: Option<CrewMember>)
    ensures AvailableSectionsForRelocate(front + back, relocating) ==
            AvailableSectionsForRelocate(front, relocating) + AvailableSectionsForRelocate(back, relocating)
  {
    if relocating.Some? {
      FilterAppend(front, back, (s: Section) => CanReceive(s, relocating.value));
    }
  }

  /** The figure on a status tile: how many crew members have exactly that status. */
  function StatusCount(crew: seq<CrewMember>, status: CrewStatus): (n: nat)
    ensures n <= |crew|
    ensures n == 0 <==> forall c :: c in crew ==> c.status != status
  {
    Count(crew, (c: CrewMember) => c.status == status)
  }

  /** The four tiles together account for the whole roster. */
  lemma {:induction false} StatusCountsCoverRoster(crew: seq<CrewMember>)
    ensures StatusCount(crew, Active) + StatusCount(crew, OffDuty) + StatusCount(crew, OnLeave)
            + StatusCount(crew, InTransit) == |crew|
  {
    if crew != [] {
      StatusCountsCoverRoster(crew[1..]);
      StatusCountCons(crew, Active);
      StatusCountCons(crew, OffDuty);
      StatusCountCons(crew, OnLeave);
      StatusCountCons(crew, InTransit);
    }
  }

  /** The first member of the roster adds one to its own tile and nothing to the others. */
  lemma StatusCountCons(crew: seq<CrewMember>, status: CrewStatus)
    requires crew != []
    ensures StatusCount(crew, status) == StatusCount(crew[1..], status) + (if crew[0].status == status then 1 else 0)
  {
  }

  /** A roster change adds up: the tiles of a roster are those of its two parts, summed. */
  lemma StatusCountAppend(front: seq<CrewMember>, back: seq<CrewMember>, status: CrewStatus)
    ensures StatusCount(front + back, status) == StatusCount(front, status) + StatusCount(back, status)
  {
    CountAppend(front, back, (c: CrewMember) => c.status == status);
  }

  // ---------------------------------------------------------------------------------------
  // Page state
  // ---------------------------------------------------------------------------------------

  /** The request a confirmed relocation sends: the member's id and the target section. */
  datatype RelocateRequest = RelocateRequest(memberId: int, sectionId: int)

  class CrewPageState {
    var crew: seq<CrewMember>
    var sections: seq<Section>
    var loading: bool
    var error: Option<string>
    var selectedSection: Option<int>
    var relocatingMember: Option<CrewMember>
    var relocateTargetSection: Option<int>
    var relocateLoading: bool
    var relocateError: Option<string>

    /** Between events: no relocation is in flight, and a chosen target or a relocation error
        only exists while the dialog is open. */
    ghost predicate Valid()
      reads this
    {
      !relocateLoading &&
      (relocateTargetSection.Some? ==> relocatingMember.Some?) &&
      (relocateError.Some? ==> relocatingMember.Some?)
    }

    /** The freshly mounted page, before its first load completes. */
    constructor ()
      ensures Valid()
      ensures crew == [] && sections == [] && loading && error.None? && selectedSection.None?
      ensures relocatingMember.None? && relocateTargetSection.None? && relocateError.None?
    {
      crew, sections, loading, error, selectedSection := [], [], true, None, None;
      relocatingMember, relocateTargetSection, relocateLoading, relocateError := None, None, false, None;
    }

    /** `loadData`, with the combined result of the roster and sections requests. */
    method LoadData(result: ApiResult<(seq<CrewMember>, seq<Section>)>)
      modifies this`crew, this`sections, this`loading, this`error
      ensures !loading
      ensures result.Resolved? ==> crew == result.value.0 && sections == result.value.1 && error.None?
      ensures result.Rejected? ==>
        crew == old(crew) && sections == old(sections) && error == Some(ErrorText(result.thrown, LoadFailed))
    {
      loading := true;
      error := None;
      match result {
        case Resolved((crewData, sectionsData)) =>
          crew := crewData;
          sections := sectionsData;
        case Rejected(thrown) =>
          error := Some(ErrorText(thrown, LoadFailed));
      }
      loading := false;
    }

    /** A click on a section button, or on "All" with `None`. */
    method SelectSection(id: Option<int>)
      modifies this`selectedSection
      ensures selectedSection == id
    {
      selectedSection := id;
    }

    /** `openRelocateModal`. */
    method OpenRelocateModal(member: CrewMember)
      requires Valid()
      modifies this`relocatingMember, this`relocateTargetSection, this`relocateError
      ensures Valid()
      ensures relocatingMember == Some(member) && relocateTargetSection.None? && relocateError.None?
    {
      relocatingMember := Some(member);
      relocateTargetSection := None;
      relocateError := None;
    }

    /** A click on a roster row's Relocate button, which is disabled for members in transit. */
    method ClickRelocate(member: CrewMember)
      requires Valid() && member in FilteredCrew(crew, selectedSection)
      modifies this`relocatingMember, this`relocateTargetSection, this`relocateError
      ensures Valid()
      ensures member.status == InTransit ==> unchanged(this)
      ensures member.status != InTransit ==>
        relocatingMember == Some(member) && relocateTargetSection.None? && relocateError.None?
    {
      if member.status != InTransit {
        OpenRelocateModal(member);
      }
    }

    /** A click on one of the dialog's destination buttons. */
    method ChooseTarget(section: Section)
      requires Valid() && section in AvailableSectionsForRelocate(sections, relocatingMember)
      modifies this`relocateTargetSection
      ensures Valid()
      ensures relocateTargetSection == Some(section.id)
    {
      relocateTargetSection := Some(section.id);
    }

    /** `closeRelocateModal`. */
    method CloseRelocateModal()
      requires Valid()
      modifies this`relocatingMember, this`relocateTargetSection, this`relocateError
      ensures Valid()
      ensures relocatingMember.None? && relocateTargetSection.None? && relocateError.None?
    {
      relocatingMember := None;
      relocateTargetSection := None;
      relocateError := None;
    }

    /** `handleRelocate`, with the result of the relocate request and, after a success, of the
        reload. `sent` is the request made, if any. */
    method HandleRelocate(relocation: ApiResult<()>, reload: ApiResult<(seq<CrewMember>, seq<Section>)>)
      returns (sent: Option<RelocateRequest>)
      requires Valid()
      modifies this
      ensures Valid()
      ensures selectedSection == old(selectedSection)
      // nothing to do without a member and a (truthy) target
      ensures old(relocatingMember).None? || !IsChosen(old(relocateTargetSection)) ==> sent.None? && unchanged(this)
      ensures old(relocatingMember).Some? && IsChosen(old(relocateTargetSection)) ==>
        sent == Some(RelocateRequest(old(relocatingMember).value.id, old(relocateTargetSection).value))
      // success closes the dialog and reloads the page
      ensures sent.Some? && relocation.Resolved? ==>
        relocatingMember.None? && relocateTargetSection.None? && relocateError.None? && !loading &&
        (reload.Resolved? ==> crew == reload.value.0 && sections == reload.value.1 && error.None?) &&
        (reload.Rejected? ==> crew == old(crew) && sections == old(sections) &&
                              error == Some(ErrorText(reload.thrown, LoadFailed)))
      // failure keeps the dialog open and reports the error in it
      ensures sent.Some? && relocation.Rejected? ==>
        relocatingMember == old(relocatingMember) && relocateTargetSection == old(relocateTargetSection) &&
        relocateError == Some(ErrorText(relocation.thrown, RelocateFailed)) &&
        crew == old(crew) && sections == old(sections) && loading == old(loading) && error == old(error)
    {
      if relocatingMember.None? || !IsChosen(relocateTargetSection) {
        return None;
      }
      sent := Some(RelocateRequest(relocatingMember.value.id, relocateTargetSection.value));
      relocateLoading := true;
      relocateError := None;
      match relocation {
        case Resolved(_) =>
          relocatingMember := None;
          relocateTargetSection := None;
          LoadData(reload);
        case Rejected(thrown) =>
          relocateError := Some(ErrorText(thrown, RelocateFailed));
      }
      relocateLoading := false;
    }
  }
}
