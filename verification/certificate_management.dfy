/** The certificate page (`app/components/certificate-management.tsx`):
    certificate templates and company seals are uploaded and deleted, a
    participant CSV is chosen, closed events are ticked in a modal and their
    data loaded, and the preview's four texts are edited.

    A picked file is `Some(name)` and an empty pick `None`; `Date.now()`,
    `new Date()` and the confirmation box's answer are parameters. */
module CertificateManagement {
  import opened Wrappers
  import opened Text
  import opened Seqs
  import opened Csv
  import opened Domain

  /** A stored template or seal image. */
  datatype StoredFile = StoredFile(id: string, name: string, fileName: string, uploadDate: DateTime)

  /** `file.name.split(".")[0]`. */
  function DisplayName(fileName: string): string {
    Split(fileName, '.')[0]
  }

  /** The display name is the file name up to its first "." (all of it when
      there is none). */
  lemma DisplayNameSpec(fileName: string)
    ensures var n := DisplayName(fileName);
      n <= fileName && '.' !in n && (|n| < |fileName| ==> fileName[|n|] == '.')
  {
    BeforeIsFirstPart(fileName, '.');
  }

  function Stored(fileName: string, nowMs: nat, now: DateTime): StoredFile {
    StoredFile(NatToString(nowMs), DisplayName(fileName), fileName, now)
  }

  function OtherId(id: string): StoredFile -> bool {
    (f: StoredFile) => f.id != id
  }

  /** `list.filter(t => t.id !== id)`. */
  function WithoutId(files: seq<StoredFile>, id: string): seq<StoredFile> {
    Filter(files, OtherId(id))
  }

  /** Deleting keeps exactly the files with another id. */
  lemma WithoutIdIff(files: seq<StoredFile>, id: string, f: StoredFile)
    ensures f in WithoutId(files, id) <==> f in files && f.id != id
  {
    var r := WithoutId(files, id);
    if f in r {
      var i :| 0 <= i < |r| && r[i] == f;
    }
    if f in files && f.id != id {
      var i :| 0 <= i < |files| && files[i] == f;
    }
  }

  // ---------------------------------------------------------------- event selection

  function Other(id: string): string -> bool {
    (x: string) => x != id
  }

  /** `handleEventSelection`: an id already ticked is removed everywhere,
      another is appended. */
  function Toggle(selected: seq<string>, id: string): seq<string> {
    if id in selected then Filter(selected, Other(id)) else selected + [id]
  }

  /** After a toggle the id is ticked exactly when it was not, and every other
      id keeps its state; a list without duplicates keeps none. */
  lemma ToggleSpec(selected: seq<string>, id: string, x: string)
    ensures id in Toggle(selected, id) <==> id !in selected
    ensures x != id ==> (x in Toggle(selected, id) <==> x in selected)
    ensures NoDup(selected) ==> NoDup(Toggle(selected, id))
  {
    var r := Toggle(selected, id);
    if id in selected {
      var f := Filter(selected, Other(id));
      if x != id && x in selected {
        var i :| 0 <= i < |selected| && selected[i] == x;
      }
      if NoDup(selected) {
        FilterKeepsDistinct(selected, Other(id), (s: string) => s);
        forall i, j | 0 <= i < j < |f| ensures f[i] != f[j] {
          assert DistinctBy(f, (s: string) => s);
        }
      }
    } else {
      if NoDup(selected) {
        forall i, j | 0 <= i < j < |r| ensures r[i] != r[j] {
          if j == |selected| {
            assert r[i] in selected;
          }
        }
      }
    }
  }

  /** Toggling an id that was not ticked twice gives the list back; toggling a
      ticked id twice ticks the same ids but moves it to the end. */
  lemma ToggleTwice(selected: seq<string>, id: string)
    ensures id !in selected ==> Toggle(Toggle(selected, id), id) == selected
    ensures id in selected ==> Toggle(Toggle(selected, id), id) == Filter(selected, Other(id)) + [id]
    ensures forall x :: x in Toggle(Toggle(selected, id), id) <==> x in selected
  {
    var once := Toggle(selected, id);
    if id !in selected {
      assert once == selected + [id];
      forall x | x in selected ensures Other(id)(x) { }
      FilterAppend(selected, [id], Other(id));
      FilterAll(selected, Other(id));
      assert Filter([id], Other(id)) == [];
    }
    forall x ensures x in Toggle(once, id) <==> x in selected {
      ToggleSpec(selected, id, x);
      ToggleSpec(once, id, x);
    }
  }

  /** Toggling is not an involution on a ticked id that is not last. */
  lemma ToggleTwiceReorders()
    ensures Toggle(Toggle(["1", "2"], "1"), "1") == ["2", "1"]
  {
    assert Filter(["1", "2"], Other("1")) == ["2"] by {
      assert ["1", "2"][1..] == ["2"];
      assert ["2"][1..] == [];
    }
  }

  // ---------------------------------------------------------------- preview

  datatype PreviewField = PreviewName | PreviewCompany | PreviewEvent | PreviewDate

  datatype PreviewData = PreviewData(name: string, company: string, event: string, date: string)

  const DefaultPreview := PreviewData("홍길동", "ABC 주식회사", "2024 기술 컨퍼런스", "2024년 6월 8일")

  function FieldValue(p: PreviewData, field: PreviewField): string {
    match field
    case PreviewName => p.name
    case PreviewCompany => p.company
    case PreviewEvent => p.event
    case PreviewDate => p.date
  }

  /** `{ ...prev, [field]: value }`. */
  function WithField(p: PreviewData, field: PreviewField, value: string): (r: PreviewData)
    ensures FieldValue(r, field) == value
    ensures forall g: PreviewField :: g != field ==> FieldValue(r, g) == FieldValue(p, g)
  {
    match field
    case PreviewName => p.(name := value)
    case PreviewCompany => p.(company := value)
    case PreviewEvent => p.(event := value)
    case PreviewDate => p.(date := value)
  }

  // ---------------------------------------------------------------- the page

  datatype State = State(
    templates: seq<StoredFile>, seals: seq<StoredFile>, previewData: PreviewData,
    showEventModal: bool, selectedEvents: seq<string>, participantFile: Option<string>)

  class CertificatePage {
    var templates: seq<StoredFile>
    var seals: seq<StoredFile>
    var previewData: PreviewData
    var showEventModal: bool
    var selectedEvents: seq<string>
    var participantFile: Option<string>

    function Snapshot(): State
      reads this
    {
      State(templates, seals, previewData, showEventModal, selectedEvents, participantFile)
    }

    /** No event is ticked twice and only a CSV file is kept as the
        participant file. */
    ghost predicate Valid()
      reads this
    {
      NoDup(selectedEvents) && (participantFile.Some? ==> IsCsvName(participantFile.value))
    }

    constructor ()
      ensures Valid() && Snapshot() == State([], [], DefaultPreview, false, [], None)
    {
      templates := [];
      seals := [];
      previewData := DefaultPreview;
      showEventModal := false;
      selectedEvents := [];
      participantFile := None;
    }

    /** `handleTemplateUpload`: a picked file appends one template. */
    method HandleTemplateUpload(file: Option<string>, nowMs: nat, now: DateTime)
      requires Valid()
      modifies this
      ensures Valid()
      ensures Snapshot() == old(Snapshot()).(templates :=
        if file.Some? then old(templates) + [Stored(file.value, nowMs, now)] else old(templates))
    {
      if file.Some? {
        templates := templates + [Stored(file.value, nowMs, now)];
      }
    }

    /** `handleSealUpload`: a picked file appends one seal. */
    method HandleSealUpload(file: Option<string>, nowMs: nat, now: DateTime)
      requires Valid()
      modifies this
      ensures Valid()
      ensures Snapshot() == old(Snapshot()).(seals :=
        if file.Some? then old(seals) + [Stored(file.value, nowMs, now)] else old(seals))
    {
      if file.Some? {
        seals := seals + [Stored(file.value, nowMs, now)];
      }
    }

    /** `handleParticipantUpload`: only a ".csv" name replaces the file; any
        other raises the prompt. */
    method HandleParticipantUpload(file: Option<string>) returns (prompt: string)
      requires Valid()
      modifies this
      ensures Valid()
      ensures file.Some? && !IsCsvName(file.value) ==> prompt == "CSV 파일만 업로드 가능합니다."
      ensures file.None? || !IsCsvName(file.value) ==> Snapshot() == old(Snapshot())
      ensures file.Some? && IsCsvName(file.value) ==>
        prompt == "" && Snapshot() == old(Snapshot()).(participantFile := file)
    {
      prompt := "";
      if file.None? {
        return;
      }
      if !EndsWith(file.value, ".csv") {
        prompt := "CSV 파일만 업로드 가능합니다.";
        return;
      }
      participantFile := file;
    }

    /** `handleDeleteTemplate(id)` with the answer to the confirmation. */
    method HandleDeleteTemplate(id: string, confirmed: bool)
      requires Valid()
      modifies this
      ensures Valid()
      ensures Snapshot() == old(Snapshot()).(templates := if confirmed then WithoutId(old(templates), id) else old(templates))
    {
      if confirmed {
        templates := WithoutId(templates, id);
      }
    }

    /** `handleDeleteSeal(id)` with the answer to the confirmation. */
    method HandleDeleteSeal(id: string, confirmed: bool)
      requires Valid()
      modifies this
      ensures Valid()
      ensures Snapshot() == old(Snapshot()).(seals := if confirmed then WithoutId(old(seals), id) else old(seals))
    {
      if confirmed {
        seals := WithoutId(seals, id);
      }
    }

    /** The "이벤트 선택" button and the modal's close and cancel. */
    method SetShowEventModal(show: bool)
      requires Valid()
      modifies this
      ensures Valid() && Snapshot() == old(Snapshot()).(showEventModal := show)
    {
      showEventModal := show;
    }

    /** `handleEventSelection(eventId)`. */
    method HandleEventSelection(eventId: string)
      requires Valid()
      modifies this
      ensures Valid()
      ensures Snapshot() == old(Snapshot()).(selectedEvents := Toggle(old(selectedEvents), eventId))
    {
      ToggleSpec(selectedEvents, eventId, eventId);
      selectedEvents := Toggle(selectedEvents, eventId);
    }

    /** `handleLoadEventData`: refused without a ticked event; otherwise the
        modal closes and the prompt reports how many were loaded. */
    method HandleLoadEventData() returns (prompt: string)
      requires Valid()
      modifies this
      ensures Valid()
      ensures old(selectedEvents) == [] ==> prompt == "불러올 이벤트를 선택해주세요." && Snapshot() == old(Snapshot())
      ensures old(selectedEvents) != [] ==>
        prompt == NatToString(|old(selectedEvents)|) + "개 이벤트의 데이터를 불러왔습니다."
        && Snapshot() == old(Snapshot()).(showEventModal := false)
    {
      if |selectedEvents| == 0 {
        return "불러올 이벤트를 선택해주세요.";
      }
      showEventModal := false;
      prompt := NatToString(|selectedEvents|) + "개 이벤트의 데이터를 불러왔습니다.";
    }

    /** `handlePreviewDataChange(field, value)`. */
    method HandlePreviewDataChange(field: PreviewField, value: string)
      requires Valid()
      modifies this
      ensures Valid()
      ensures Snapshot() == old(Snapshot()).(previewData := WithField(old(previewData), field, value))
    {
      previewData := WithField(previewData, field, value);
    }
  }
}
