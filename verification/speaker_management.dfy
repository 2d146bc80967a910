/** The speaker list (`app/components/speaker-management.tsx`): speakers are
    added from a five-field form in a modal and deleted after a confirmation.
    `Date.now()` and `new Date()` are parameters; the confirmation box is a
    boolean answer. */
module SpeakerManagement {
  import opened Text
  import opened Seqs
  import opened Domain

  datatype Speaker = Speaker(
    id: string, name: string, affiliation: string, position: string, email: string, contact: string,
    createdAt: DateTime)

  datatype SpeakerForm = SpeakerForm(name: string, affiliation: string, position: string, email: string, contact: string)

  const EmptyForm := SpeakerForm("", "", "", "", "")

  /** None of the five fields is empty (`!formData.x` is false for each). */
  predicate FormComplete(f: SpeakerForm) {
    f.name != "" && f.affiliation != "" && f.position != "" && f.email != "" && f.contact != ""
  }

  /** The speaker built from the form at time `nowMs`. */
  function NewSpeaker(f: SpeakerForm, nowMs: nat, now: DateTime): Speaker {
    Speaker(NatToString(nowMs), f.name, f.affiliation, f.position, f.email, f.contact, now)
  }

  /** The form a speaker was built from. */
  function FormOf(s: Speaker): SpeakerForm {
    SpeakerForm(s.name, s.affiliation, s.position, s.email, s.contact)
  }

  /** A new speaker carries exactly the form's fields and its time stamp as id. */
  lemma NewSpeakerFields(f: SpeakerForm, nowMs: nat, now: DateTime)
    ensures FormOf(NewSpeaker(f, nowMs, now)) == f
    ensures NewSpeaker(f, nowMs, now).id == NatToString(nowMs) && NewSpeaker(f, nowMs, now).createdAt == now
  {
  }

  /** Every speaker on the list has all five fields filled in. */
  predicate AllComplete(speakers: seq<Speaker>) {
    forall i :: 0 <= i < |speakers| ==> FormComplete(FormOf(speakers[i]))
  }

  function OtherId(id: string): Speaker -> bool {
    (s: Speaker) => s.id != id
  }

  /** `speakers.filter(speaker => speaker.id !== id)`. */
  function WithoutId(speakers: seq<Speaker>, id: string): seq<Speaker> {
    Filter(speakers, OtherId(id))
  }

  /** Deleting removes every speaker with the id and keeps exactly the
      others; a list without the id is left as it is. */
  lemma WithoutIdSpec(speakers: seq<Speaker>, id: string, s: Speaker)
    ensures s in WithoutId(speakers, id) <==> s in speakers && s.id != id
    ensures |WithoutId(speakers, id)| <= |speakers|
    ensures (forall i :: 0 <= i < |speakers| ==> speakers[i].id != id) ==> WithoutId(speakers, id) == speakers
  {
    var r := WithoutId(speakers, id);
    if s in r {
      var i :| 0 <= i < |r| && r[i] == s;
    }
    if s in speakers && s.id != id {
      var i :| 0 <= i < |speakers| && speakers[i] == s;
    }
    if forall i :: 0 <= i < |speakers| ==> speakers[i].id != id {
      forall x | x in speakers ensures OtherId(id)(x) {
        var i :| 0 <= i < |speakers| && speakers[i] == x;
      }
      FilterAll(speakers, OtherId(id));
    }
  }

  /** Deleting keeps every speaker complete. */
  lemma WithoutIdComplete(speakers: seq<Speaker>, id: string)
    requires AllComplete(speakers)
    ensures AllComplete(WithoutId(speakers, id))
  {
    var r := WithoutId(speakers, id);
    forall i | 0 <= i < |r| ensures FormComplete(FormOf(r[i])) {
      var k :| 0 <= k < |speakers| && speakers[k] == r[i];
    }
  }

  datatype State = State(speakers: seq<Speaker>, showAddModal: bool, form: SpeakerForm)

  class SpeakerPage {
    var speakers: seq<Speaker>
    var showAddModal: bool
    var form: SpeakerForm

    function Snapshot(): State
      reads this
    {
      State(speakers, showAddModal, form)
    }

    /** Only complete speakers are ever added. */
    ghost predicate Valid()
      reads this
    {
      AllComplete(speakers)
    }

    constructor ()
      ensures Valid() && Snapshot() == State([], false, EmptyForm)
    {
      speakers := [];
      showAddModal := false;
      form := EmptyForm;
    }

    /** The "연사 추가" button, the cancel button and the dialog's own close. */
    method SetShowAddModal(show: bool)
      requires Valid()
      modifies this
      ensures Valid() && Snapshot() == old(Snapshot()).(showAddModal := show)
    {
      showAddModal := show;
    }

    /** An input of the form: `setFormData({ ...formData, x: value })`. */
    method SetForm(f: SpeakerForm)
      requires Valid()
      modifies this
      ensures Valid() && Snapshot() == old(Snapshot()).(form := f)
    {
      form := f;
    }

    /** `handleAddSpeaker` at time `nowMs`. An incomplete form raises the
        prompt and changes nothing; a complete one appends one speaker with
        the form's fields, closes the modal and empties the form. */
    method HandleAddSpeaker(nowMs: nat, now: DateTime) returns (prompt: string)
      requires Valid()
      modifies this
      ensures Valid()
      ensures !FormComplete(old(form)) ==> prompt == "모든 필드를 입력해주세요." && Snapshot() == old(Snapshot())
      ensures FormComplete(old(form)) ==>
        prompt == "" && Snapshot() == State(old(speakers) + [NewSpeaker(old(form), nowMs, now)], false, EmptyForm)
    {
      if form.name == "" || form.affiliation == "" || form.position == "" || form.email == "" || form.contact == "" {
        return "모든 필드를 입력해주세요.";
      }
      var speaker := Speaker(NatToString(nowMs), form.name, form.affiliation, form.position, form.email,
        form.contact, now);
      speakers := speakers + [speaker];
      showAddModal := false;
      form := EmptyForm;
      prompt := "";
    }

    /** `handleDeleteSpeaker(id)` with the answer to the confirmation. */
    method HandleDeleteSpeaker(id: string, confirmed: bool)
      requires Valid()
      modifies this
      ensures Valid()
      ensures Snapshot() == old(Snapshot()).(speakers := if confirmed then WithoutId(old(speakers), id) else old(speakers))
    {
      if confirmed {
        WithoutIdComplete(speakers, id);
        speakers := WithoutId(speakers, id);
      }
    }
  }
}
