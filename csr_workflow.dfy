/** The clinical-study-report workflow of report_generation.py: a document
    of titled sections, each moving through `DocumentStatus` values under
    guarded transitions (review, quality control, approval), and the
    document status derived from the section statuses by a fixed priority
    chain. Timestamps are dropped; the language-model refinement call is a
    function parameter that may fail. */
module CsrWorkflow {
  import opened Wrappers

  /** `DocumentStatus`. */
  datatype Status =
    | NotStarted
    | DraftInProgress
    | DraftCompleted
    | HumanReviewInProgress
    | HumanReviewCompleted
    | QcInProgress
    | QcCompleted
    | FinalApprovalInProgress
    | Approved

  /** One entry of `review_comments` or `qc_comments`. */
  datatype Comment = Comment(reviewer: string, feedback: string, approved: bool)

  /** One entry of `version_history`: the content and status replaced. */
  datatype Version = Version(content: string, status: Status)

  /** `CSRSection`; of `approval_status` only the two reviewer ids are kept,
      None where the key is absent. */
  datatype Section = Section(
    title: string,
    content: string,
    status: Status,
    reviewer: Option<string>,
    qcReviewer: Option<string>,
    reviewComments: seq<Comment>,
    qcComments: seq<Comment>,
    history: seq<Version>)

  /** An entry of `metrics["approvers"]`; `approved` is its status
      "approved" as opposed to "pending". */
  datatype Approver = Approver(id: string, role: string, approved: bool, comments: Option<string>)

  datatype CsrError = SectionNotFound(title: string)

  // ---------------------------------------------------------------------------
  // The document status

  predicate AllAre(sections: map<string, Section>, s: Status)
  {
    forall t :: t in sections ==> sections[t].status == s
  }

  predicate AnyIs(sections: map<string, Section>, s: Status)
  {
    exists t :: t in sections && sections[t].status == s
  }

  /** `update_status`: the first test of the chain that holds decides. */
  function Overall(sections: map<string, Section>): Status
  {
    if AllAre(sections, Approved) then Approved
    else if AnyIs(sections, FinalApprovalInProgress) then FinalApprovalInProgress
    else if AllAre(sections, QcCompleted) then QcCompleted
    else if AnyIs(sections, QcInProgress) then QcInProgress
    else if AllAre(sections, HumanReviewCompleted) then HumanReviewCompleted
    else if AnyIs(sections, HumanReviewInProgress) then HumanReviewInProgress
    else if AllAre(sections, DraftCompleted) then DraftCompleted
    else if AnyIs(sections, DraftInProgress) then DraftInProgress
    else NotStarted
  }

  /** A document without sections counts as approved. */
  lemma OverallEmpty()
    ensures Overall(map[]) == Approved
  {
  }

  /** The document is approved exactly when every section is. */
  lemma OverallApprovedIff(sections: map<string, Section>)
    ensures Overall(sections) == Approved <==> AllAre(sections, Approved)
  {
  }

  /** When every section has the same status, the document has it too. */
  lemma OverallUniform(sections: map<string, Section>, s: Status)
    requires sections != map[] && AllAre(sections, s)
    ensures Overall(sections) == s
  {
    var t :| t in sections;
    assert sections[t].status == s;
  }

  /** One section in final approval puts the whole document there, unless
      every section is already approved. */
  lemma OverallFinalApprovalWins(sections: map<string, Section>, t: string)
    requires t in sections && sections[t].status == FinalApprovalInProgress
    ensures Overall(sections) == FinalApprovalInProgress
  {
  }

  /** The chain has no rule for sections that sit at different completed
      stages: one section through QC and one through review only gives
      NOT_STARTED, though neither section is. */
  lemma OverallMixedCompleted(a: Section, b: Section)
    requires a.status == QcCompleted && b.status == HumanReviewCompleted
    ensures Overall(map["A" := a, "B" := b]) == NotStarted
  {
    var m := map["A" := a, "B" := b];
    assert m["A"].status == QcCompleted && m["B"].status == HumanReviewCompleted;
    assert !AllAre(m, Approved) && !AllAre(m, QcCompleted) && !AllAre(m, HumanReviewCompleted) && !AllAre(m, DraftCompleted);
  }

  /** Every section's status set to `s`. */
  function WithStatus(sections: map<string, Section>, s: Status): (r: map<string, Section>)
    ensures r.Keys == sections.Keys
    ensures AllAre(r, s)
  {
    map t | t in sections :: sections[t].(status := s)
  }

  // ---------------------------------------------------------------------------
  // Finalisation order

  /** The fixed order `finalize_document` emits first. */
  const SectionOrder: seq<string> := [
    "Title Page", "Synopsis", "Table of Contents", "Introduction",
    "Study Objectives", "Investigational Plan", "Study Population",
    "Efficacy Evaluation", "Safety Evaluation", "Discussion and Conclusions"]

  predicate Distinct(s: seq<string>)
  {
    forall i, j :: 0 <= i < j < |s| ==> s[i] != s[j]
  }

  /** The dict's keys in insertion order are exactly the sections. */
  ghost predicate WellKeyed(sections: map<string, Section>, order: seq<string>)
  {
    Distinct(order) && forall t :: t in sections <==> t in order
  }

  /** The titles of `fixed` that are sections, in that order. */
  function Present(fixed: seq<string>, sections: map<string, Section>): (r: seq<string>)
    ensures forall t :: t in r <==> t in fixed && t in sections
    ensures Distinct(fixed) ==> Distinct(r)
  {
    if fixed == [] then []
    else
      var init := fixed[..|fixed| - 1];
      var t := fixed[|fixed| - 1];
      var rest := Present(init, sections);
      assert fixed == init + [t];
      if t in sections then
        assert Distinct(fixed) ==> t !in init;
        rest + [t]
      else rest
  }

  /** The titles of `order` that are not in `fixed`, in that order. */
  function Remaining(order: seq<string>, fixed: seq<string>): (r: seq<string>)
    ensures forall t :: t in r <==> t in order && t !in fixed
    ensures Distinct(order) ==> Distinct(r)
  {
    if order == [] then []
    else
      var init := order[..|order| - 1];
      var t := order[|order| - 1];
      var rest := Remaining(init, fixed);
      assert order == init + [t];
      if t !in fixed then
        assert Distinct(order) ==> t !in init;
        rest + [t]
      else rest
  }

  /** The titles `finalize_document` emits, in the order it emits them. */
  function Emitted(order: seq<string>, sections: map<string, Section>): seq<string>
  {
    Present(SectionOrder, sections) + Remaining(order, SectionOrder)
  }

  lemma SectionOrderDistinct()
    ensures Distinct(SectionOrder)
  {
  }

  /** Every section is emitted exactly once. */
  lemma EmittedOnce(order: seq<string>, sections: map<string, Section>)
    requires WellKeyed(sections, order)
    ensures forall t :: t in Emitted(order, sections) <==> t in sections
    ensures Distinct(Emitted(order, sections))
    ensures |Emitted(order, sections)| == |order|
  {
    SectionOrderDistinct();
    var a := Present(SectionOrder, sections);
    var b := Remaining(order, SectionOrder);
    DistinctAppend(a, b);
    DistinctSubsetSize(a + b, order);
    DistinctSubsetSize(order, a + b);
  }

  /** Two duplicate-free sequences with no common element join into a
      duplicate-free sequence. */
  lemma DistinctAppend(a: seq<string>, b: seq<string>)
    requires Distinct(a) && Distinct(b)
    requires forall t :: t in a ==> t !in b
    ensures Distinct(a + b)
  {
    var e := a + b;
    forall i, j | 0 <= i < j < |e|
      ensures e[i] != e[j]
    {
      if i < |a| && j >= |a| {
        assert e[i] in a && e[j] == b[j - |a|];
        assert b[j - |a|] in b;
      } else if i >= |a| {
        assert e[i] == b[i - |a|] && e[j] == b[j - |a|];
      }
    }
  }

  /** A duplicate-free sequence is no longer than any sequence holding all
      its elements. */
  lemma {:induction false} DistinctSubsetSize(a: seq<string>, b: seq<string>)
    requires Distinct(a) && forall t :: t in a ==> t in b
    ensures |a| <= |b|
    decreases |a|
  {
    if a != [] {
      var x := a[0];
      assert x in a;
      var k :| 0 <= k < |b| && b[k] == x;
      var b' := b[..k] + b[k + 1..];
      var a' := a[1..];
      forall t | t in a'
        ensures t in b'
      {
        var i :| 0 <= i < |a'| && a'[i] == t;
        assert a[i + 1] == t && a[0] != a[i + 1];
        assert t in a;
        var m :| 0 <= m < |b| && b[m] == t;
        if m < k { assert b'[m] == t; } else { assert b'[m - 1] == t; }
      }
      DistinctSubsetSize(a', b');
    }
  }

  /** One emitted block. */
  function Block(title: string, content: string): string
  {
    "# " + title + "\n\n" + content + "\n\n"
  }

  /** The content of a titled section; only titles of sections are ever
      looked up, so the empty fallback is never reached. */
  function ContentOf(title: string, sections: map<string, Section>): string
  {
    if title in sections then sections[title].content else []
  }

  /** The blocks of `titles`, in order. */
  function Blocks(titles: seq<string>, sections: map<string, Section>): string
  {
    if titles == [] then []
    else Blocks(titles[..|titles| - 1], sections) + Block(titles[|titles| - 1], ContentOf(titles[|titles| - 1], sections))
  }

  // ---------------------------------------------------------------------------
  // The document

  /** `CSRDocument`; `approvers` is `metrics["approvers"]` (None while the
      key is absent) and `finalLength` is `metrics["final_document_length"]`. */
  class Document {
    var title: string
    var sections: map<string, Section>
    var order: seq<string>
    var status: Status
    var approvers: Option<seq<Approver>>
    var finalLength: Option<nat>

    ghost predicate Valid()
      reads this
    {
      WellKeyed(sections, order)
    }

    constructor(title: string)
      ensures Valid() && this.title == title && sections == map[] && order == []
      ensures status == NotStarted && approvers == None && finalLength == None
    {
      this.title := title;
      sections := map[];
      order := [];
      status := NotStarted;
      approvers := None;
      finalLength := None;
    }

    /** `add_section`: a new title goes to the end of the order; an
        existing title keeps its place and gets the new section. */
    method AddSection(section: Section)
      requires Valid()
      modifies this
      ensures Valid() && sections == old(sections)[section.title := section]
      ensures order == if section.title in old(sections) then old(order) else old(order) + [section.title]
      ensures title == old(title) && status == old(status) && approvers == old(approvers) && finalLength == old(finalLength)
    {
      if section.title !in sections {
        order := order + [section.title];
      }
      sections := sections[section.title := section];
    }

    /** `update_section`: an unknown title is an error and changes nothing;
        otherwise the old content and status go to the history and are
        replaced. */
    method UpdateSection(t: string, content: string, s: Status) returns (err: Option<CsrError>)
      requires Valid()
      modifies this
      ensures Valid()
      ensures err.Some? <==> t !in old(sections)
      ensures err.Some? ==> err.value == SectionNotFound(t) && sections == old(sections)
      ensures err.None? ==>
        var before := old(sections)[t];
        sections == old(sections)[t := before.(content := content, status := s,
                                               history := before.history + [Version(before.content, before.status)])]
      ensures order == old(order) && status == old(status) && approvers == old(approvers) && finalLength == old(finalLength)
    {
      if t in sections {
        var section := sections[t];
        var oldVersion := Version(section.content, section.status);
        section := section.(history := section.history + [oldVersion]);
        section := section.(content := content, status := s);
        sections := sections[t := section];
        return None;
      } else {
        return Some(SectionNotFound(t));
      }
    }

    /** `update_status`. */
    method UpdateStatus()
      modifies this
      ensures status == Overall(sections)
      ensures sections == old(sections) && order == old(order) && approvers == old(approvers) && finalLength == old(finalLength)
    {
      if AllAre(sections, Approved) {
        status := Approved;
      } else if AnyIs(sections, FinalApprovalInProgress) {
        status := FinalApprovalInProgress;
      } else if AllAre(sections, QcCompleted) {
        status := QcCompleted;
      } else if AnyIs(sections, QcInProgress) {
        status := QcInProgress;
      } else if AllAre(sections, HumanReviewCompleted) {
        status := HumanReviewCompleted;
      } else if AnyIs(sections, HumanReviewInProgress) {
        status := HumanReviewInProgress;
      } else if AllAre(sections, DraftCompleted) {
        status := DraftCompleted;
      } else if AnyIs(sections, DraftInProgress) {
        status := DraftInProgress;
      } else {
        status := NotStarted;
      }
    }

    /** The loop `for section in sections.values(): section.status = s`. */
    method MarkAll(s: Status)
      requires Valid()
      modifies this
      ensures Valid() && sections == WithStatus(old(sections), s)
      ensures status == old(status) && order == old(order) && approvers == old(approvers) && finalLength == old(finalLength)
    {
      var m := sections;
      var todo := sections.Keys;
      while todo != {}
        invariant todo <= m.Keys && m.Keys == old(sections).Keys
        invariant forall t :: t in m ==> m[t] == if t in todo then old(sections)[t] else old(sections)[t].(status := s)
        decreases todo
      {
        var t :| t in todo;
        m := m[t := m[t].(status := s)];
        todo := todo - {t};
      }
      sections := m;
    }
  }

  // ---------------------------------------------------------------------------
  // The managers

  /** `HumanReviewManager`; `refine` stands for the language-model
      refinement call, None when it raises. */
  class ReviewManager {
    const document: Document

    constructor(document: Document)
      ensures this.document == document
    {
      this.document := document;
    }

    /** `assign_section_for_review`: only a DRAFT_COMPLETED section moves,
        to HUMAN_REVIEW_IN_PROGRESS with the reviewer recorded. */
    method AssignSectionForReview(t: string, reviewer: string)
      requires document.Valid()
      modifies document
      ensures document.Valid() && document.order == old(document.order) && document.status == old(document.status)
      ensures document.approvers == old(document.approvers) && document.finalLength == old(document.finalLength)
      ensures document.sections ==
        if t in old(document.sections) && old(document.sections)[t].status == DraftCompleted
        then old(document.sections)[t := old(document.sections)[t].(status := HumanReviewInProgress, reviewer := Some(reviewer))]
        else old(document.sections)
    {
      if t in document.sections {
        var section := document.sections[t];
        if section.status == DraftCompleted {
          section := section.(status := HumanReviewInProgress, reviewer := Some(reviewer));
          document.sections := document.sections[t := section];
        }
      }
    }

    /** `submit_review_feedback`. */
    method SubmitReviewFeedback(t: string, reviewer: string, feedback: string, approved: bool,
                                refine: (string, string) -> Option<string>)
      requires document.Valid()
      modifies document
      ensures document.Valid() && document.order == old(document.order)
      ensures document.approvers == old(document.approvers) && document.finalLength == old(document.finalLength)
      ensures t !in old(document.sections) || old(document.sections)[t].reviewer != Some(reviewer) ==>
        document.sections == old(document.sections) && document.status == old(document.status)
      ensures t in old(document.sections) && old(document.sections)[t].reviewer == Some(reviewer) ==>
        var before := old(document.sections)[t];
        var commented := before.(reviewComments := before.reviewComments + [Comment(reviewer, feedback, approved)]);
        if approved then
          document.sections == old(document.sections)[t := commented.(status := HumanReviewCompleted)] &&
          document.status == Overall(document.sections)
        else if refine(before.content, feedback).None? then
          document.sections == old(document.sections)[t := commented] && document.status == old(document.status)
        else
          document.sections == old(document.sections)[t := commented.(
            history := before.history + [Version(before.content, before.status)],
            content := refine(before.content, feedback).value)] &&
          document.status == Overall(document.sections)
    {
      if t !in document.sections || document.sections[t].reviewer != Some(reviewer) {
        return;
      }
      var before := document.sections[t];
      var commented := before.(reviewComments := before.reviewComments + [Comment(reviewer, feedback, approved)]);
      if approved {
        document.sections := document.sections[t := commented.(status := HumanReviewCompleted)];
      } else {
        var revised := refine(before.content, feedback);
        if revised.None? {
          document.sections := document.sections[t := commented];
          return;
        }
        document.sections := document.sections[t := commented.(
          history := before.history + [Version(before.content, before.status)],
          content := revised.value)];
      }
      document.UpdateStatus();
    }
  }

  /** `QualityControlManager`. */
  class QcManager {
    const document: Document

    constructor(document: Document)
      ensures this.document == document
    {
      this.document := document;
    }

    /** `assign_qc_review`: only a HUMAN_REVIEW_COMPLETED section moves, to
        QC_IN_PROGRESS with the QC reviewer recorded. */
    method AssignQcReview(t: string, qcReviewer: string)
      requires document.Valid()
      modifies document
      ensures document.Valid() && document.order == old(document.order) && document.status == old(document.status)
      ensures document.approvers == old(document.approvers) && document.finalLength == old(document.finalLength)
      ensures document.sections ==
        if t in old(document.sections) && old(document.sections)[t].status == HumanReviewCompleted
        then old(document.sections)[t := old(document.sections)[t].(status := QcInProgress, qcReviewer := Some(qcReviewer))]
        else old(document.sections)
    {
      if t in document.sections {
        var section := document.sections[t];
        if section.status == HumanReviewCompleted {
          section := section.(status := QcInProgress, qcReviewer := Some(qcReviewer));
          document.sections := document.sections[t := section];
        }
      }
    }

    /** `submit_qc_feedback`: the assigned QC reviewer's comment is kept,
        and the section moves to QC_COMPLETED or back to review. */
    method SubmitQcFeedback(t: string, qcReviewer: string, feedback: string, approved: bool)
      requires document.Valid()
      modifies document
      ensures document.Valid() && document.order == old(document.order)
      ensures document.approvers == old(document.approvers) && document.finalLength == old(document.finalLength)
      ensures t !in old(document.sections) || old(document.sections)[t].qcReviewer != Some(qcReviewer) ==>
        document.sections == old(document.sections) && document.status == old(document.status)
      ensures t in old(document.sections) && old(document.sections)[t].qcReviewer == Some(qcReviewer) ==>
        var before := old(document.sections)[t];
        document.sections == old(document.sections)[t := before.(
          qcComments := before.qcComments + [Comment(qcReviewer, feedback, approved)],
          status := if approved then QcCompleted else HumanReviewInProgress)] &&
        document.status == Overall(document.sections)
    {
      if t in document.sections {
        var section := document.sections[t];
        if section.qcReviewer != Some(qcReviewer) {
          return;
        }
        section := section.(qcComments := section.qcComments + [Comment(qcReviewer, feedback, approved)]);
        if approved {
          section := section.(status := QcCompleted);
        } else {
          section := section.(status := HumanReviewInProgress);
        }
        document.sections := document.sections[t := section];
        document.UpdateStatus();
      }
    }
  }

  /** The first approver with id `id`. */
  function FirstWithId(approvers: seq<Approver>, id: string): (r: Option<nat>)
    ensures r.Some? ==> r.value < |approvers| && approvers[r.value].id == id
    ensures forall k :: 0 <= k < |approvers| && (r.None? || k < r.value) ==> approvers[k].id != id
  {
    if approvers == [] then None
    else if approvers[0].id == id then Some(0)
    else match FirstWithId(approvers[1..], id)
      case None => None
      case Some(k) => Some(k + 1)
  }

  predicate AllApproved(approvers: seq<Approver>)
  {
    forall k :: 0 <= k < |approvers| ==> approvers[k].approved
  }

  /** `FinalApprovalManager`. */
  class ApprovalManager {
    const document: Document

    constructor(document: Document)
      ensures this.document == document
    {
      this.document := document;
    }

    /** `initiate_approval_process`: only when every section has passed QC
        do the document and all sections enter final approval. */
    method InitiateApprovalProcess() returns (started: bool)
      requires document.Valid()
      modifies document
      ensures document.Valid() && document.order == old(document.order)
      ensures document.approvers == old(document.approvers) && document.finalLength == old(document.finalLength)
      ensures started == AllAre(old(document.sections), QcCompleted)
      ensures !started ==> document.sections == old(document.sections) && document.status == old(document.status)
      ensures started ==> document.status == FinalApprovalInProgress
      ensures started ==> document.sections == WithStatus(old(document.sections), FinalApprovalInProgress)
    {
      if !AllAre(document.sections, QcCompleted) {
        return false;
      }
      document.status := FinalApprovalInProgress;
      document.MarkAll(FinalApprovalInProgress);
      return true;
    }

    /** `assign_approver`: only during final approval; creates the list on
        first use. */
    method AssignApprover(id: string, role: string)
      requires document.Valid()
      modifies document
      ensures document.Valid() && document.sections == old(document.sections) && document.order == old(document.order)
      ensures document.status == old(document.status) && document.finalLength == old(document.finalLength)
      ensures document.approvers ==
        if old(document.status) != FinalApprovalInProgress then old(document.approvers)
        else Some((if old(document.approvers).Some? then old(document.approvers).value else []) + [Approver(id, role, false, None)])
    {
      if document.status != FinalApprovalInProgress {
        return;
      }
      if document.approvers.None? {
        document.approvers := Some([]);
      }
      document.approvers := Some(document.approvers.value + [Approver(id, role, false, None)]);
    }

    /** `record_approval`: the first approver with the id is marked
        approved; an unknown id or a missing list changes nothing; once
        every approver has approved, the document and all its sections are
        APPROVED. */
    method RecordApproval(id: string, comments: string)
      requires document.Valid()
      modifies document
      ensures document.Valid() && document.order == old(document.order) && document.finalLength == old(document.finalLength)
      ensures old(document.approvers).None? || FirstWithId(old(document.approvers).value, id).None? ==>
        document.approvers == old(document.approvers) && document.sections == old(document.sections) && document.status == old(document.status)
      ensures old(document.approvers).Some? && FirstWithId(old(document.approvers).value, id).Some? ==>
        var before := old(document.approvers).value;
        var k := FirstWithId(before, id).value;
        var after := before[k := before[k].(approved := true, comments := Some(comments))];
        document.approvers == Some(after) &&
        (AllApproved(after) ==> document.status == Approved && document.sections == WithStatus(old(document.sections), Approved)) &&
        (!AllApproved(after) ==> document.status == old(document.status) && document.sections == old(document.sections))
    {
      if document.approvers.None? {
        return;
      }
      var approvers := document.approvers.value;
      var k := 0;
      while k < |approvers| && approvers[k].id != id
        invariant 0 <= k <= |approvers|
        invariant forall j :: 0 <= j < k ==> approvers[j].id != id
      {
        k := k + 1;
      }
      if k == |approvers| {
        return;
      }
      approvers := approvers[k := approvers[k].(approved := true, comments := Some(comments))];
      document.approvers := Some(approvers);
      if AllApproved(approvers) {
        document.status := Approved;
        document.MarkAll(Approved);
      }
    }

    /** `finalize_document`: "" unless the document is approved; otherwise
        the fixed-order sections, then the others in insertion order. */
    method FinalizeDocument() returns (text: string)
      requires document.Valid()
      modifies document
      ensures document.Valid() && document.sections == old(document.sections) && document.order == old(document.order)
      ensures document.status == old(document.status) && document.approvers == old(document.approvers)
      ensures old(document.status) != Approved ==> text == [] && document.finalLength == old(document.finalLength)
      ensures old(document.status) == Approved ==>
        text == Blocks(Emitted(document.order, document.sections), document.sections) && document.finalLength == Some(|text|)
    {
      if document.status != Approved {
        return [];
      }
      var sections := document.sections;
      var head := FixedBlocks(sections);
      var tail := RemainingBlocks(document.order, sections);
      BlocksAppend(Present(SectionOrder, sections), Remaining(document.order, SectionOrder), sections);
      text := head + tail;
      document.finalLength := Some(|text|);
    }
  }

  /** The first loop of `finalize_document`: the sections of the fixed
      order that exist, in that order. */
  method FixedBlocks(sections: map<string, Section>) returns (text: string)
    ensures text == Blocks(Present(SectionOrder, sections), sections)
  {
    text := [];
    ghost var emitted: seq<string> := [];
    for i := 0 to |SectionOrder|
      invariant emitted == Present(SectionOrder[..i], sections)
      invariant text == Blocks(emitted, sections)
    {
      PresentSnoc(SectionOrder, i, sections);
      if SectionOrder[i] in sections {
        BlocksSnoc(emitted, SectionOrder[i], sections);
        text := text + Block(SectionOrder[i], sections[SectionOrder[i]].content);
        emitted := emitted + [SectionOrder[i]];
      }
    }
    assert SectionOrder[..|SectionOrder|] == SectionOrder;
  }

  /** The second loop of `finalize_document`: every other section, in
      insertion order. */
  method RemainingBlocks(order: seq<string>, sections: map<string, Section>) returns (text: string)
    requires forall t :: t in order ==> t in sections
    ensures text == Blocks(Remaining(order, SectionOrder), sections)
  {
    text := [];
    ghost var emitted: seq<string> := [];
    for i := 0 to |order|
      invariant emitted == Remaining(order[..i], SectionOrder)
      invariant text == Blocks(emitted, sections)
    {
      RemainingSnoc(order, i, SectionOrder);
      if order[i] !in SectionOrder {
        assert order[i] in order;
        BlocksSnoc(emitted, order[i], sections);
        text := text + Block(order[i], sections[order[i]].content);
        emitted := emitted + [order[i]];
      }
    }
    assert order[..|order|] == order;
  }

  /** The text of two title lists one after the other is the two texts
      joined. */
  lemma {:induction false} BlocksAppend(a: seq<string>, b: seq<string>, sections: map<string, Section>)
    ensures Blocks(a + b, sections) == Blocks(a, sections) + Blocks(b, sections)
    decreases |b|
  {
    if b == [] {
      assert a + b == a;
    } else {
      var b' := b[..|b| - 1];
      var last := Block(b[|b| - 1], ContentOf(b[|b| - 1], sections));
      BlocksAppend(a, b', sections);
      assert (a + b)[..|a + b| - 1] == a + b';
      assert (a + b)[|a + b| - 1] == b[|b| - 1];
      assert Blocks(a + b, sections) == Blocks(a + b', sections) + last;
      assert Blocks(b, sections) == Blocks(b', sections) + last;
    }
  }

  lemma BlocksSnoc(titles: seq<string>, t: string, sections: map<string, Section>)
    ensures Blocks(titles + [t], sections) == Blocks(titles, sections) + Block(t, ContentOf(t, sections))
  {
    assert (titles + [t])[..|titles|] == titles;
  }

  lemma PresentSnoc(fixed: seq<string>, i: nat, sections: map<string, Section>)
    requires i < |fixed|
    ensures Present(fixed[..i + 1], sections) ==
      Present(fixed[..i], sections) + (if fixed[i] in sections then [fixed[i]] else [])
  {
    assert fixed[..i + 1][..i] == fixed[..i];
  }

  lemma RemainingSnoc(order: seq<string>, i: nat, fixed: seq<string>)
    requires i < |order|
    ensures Remaining(order[..i + 1], fixed) ==
      Remaining(order[..i], fixed) + (if order[i] !in fixed then [order[i]] else [])
  {
    assert order[..i + 1][..i] == order[..i];
  }
}
