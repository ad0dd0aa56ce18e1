/**
 * The add-member form: text inputs whose dotted names route each edit into
 * the top-level record, `memberDetails` or `memberDetails.address`; segment
 * check boxes that toggle membership; and a submit that posts the form and
 * either resets it or shows an error.
 */
module AddMember {
  import opened Entities
  import opened Sequences
  import Text

  /**
   * `formData`. JavaScript objects become maps from field name to value, so
   * that `{ ...prev, [key]: value }` is exactly a map update; the segment ids
   * stay a list.
   */
  datatype FormData = FormData(
    fields: map<string, string>,
    segments: seq<string>,
    memberDetails: map<string, string>,
    address: map<string, string>)

  /** The empty form the component starts with and resets to after a successful submit. */
  const InitialForm: FormData := FormData(
    map["firstName" := "", "lastName" := "", "email" := "", "broker" := ""],
    [],
    map["experience" := "", "specialization" := "", "targetAmount" := "", "phone" := ""],
    map["street" := "", "city" := "", "state" := "", "pincode" := ""])

  const ADDRESS_PREFIX := "address."
  const DETAILS_PREFIX := "memberDetails."

  /** Where an input's value is stored. */
  datatype FieldPath = TopField(key: string) | DetailField(key: string) | AddressField(key: string)

  /** The current value at a path, `None` when the key is absent. */
  function ValueAt(form: FormData, p: FieldPath): Option<string> {
    match p
    case TopField(k) => if k in form.fields then Some(form.fields[k]) else None
    case DetailField(k) => if k in form.memberDetails then Some(form.memberDetails[k]) else None
    case AddressField(k) => if k in form.address then Some(form.address[k]) else None
  }

  /**
   * `name.split('.')[1]` for a name that starts with `prefix`; both prefixes
   * end in their only dot, so the second segment is what follows the prefix
   * up to the next dot.
   */
  function FieldAfter(name: string, prefix: string): (field: string)
    requires Text.StartsWith(name, prefix)
    ensures '.' !in field
    ensures Text.StartsWith(name[|prefix|..], field)
    ensures |prefix| + |field| == |name| || name[|prefix| + |field|] == '.'
  {
    Text.TakeUntil(name[|prefix|..], '.')
  }

  /** The routing of `handleInputChange`: the `address.` test first, then `memberDetails.`, else top level. */
  function Route(name: string): (p: FieldPath)
    ensures p.AddressField? <==> Text.StartsWith(name, ADDRESS_PREFIX)
    ensures p.DetailField? <==> !Text.StartsWith(name, ADDRESS_PREFIX) && Text.StartsWith(name, DETAILS_PREFIX)
    ensures p.TopField? ==> p.key == name
    ensures !p.TopField? ==> '.' !in p.key
    ensures p.AddressField? ==> p.key == FieldAfter(name, ADDRESS_PREFIX)
    ensures p.DetailField? ==> p.key == FieldAfter(name, DETAILS_PREFIX)
  {
    if Text.StartsWith(name, ADDRESS_PREFIX) then AddressField(FieldAfter(name, ADDRESS_PREFIX))
    else if Text.StartsWith(name, DETAILS_PREFIX) then DetailField(FieldAfter(name, DETAILS_PREFIX))
    else TopField(name)
  }

  /**
   * Names whose update would, in the component, overwrite a nested record
   * (the segment list, `memberDetails`, `address`) with a string. The form
   * renders none of them.
   */
  predicate ReshapesForm(name: string) {
    Route(name) in {TopField("segments"), TopField("memberDetails"), DetailField("address")}
  }

  /**
   * `handleInputChange`: the routed path takes `value`; every other path and
   * the segment list keep theirs.
   */
  function InputChanged(form: FormData, name: string, value: string): (r: FormData)
    requires !ReshapesForm(name)
    ensures ValueAt(r, Route(name)) == Some(value)
    ensures forall p :: p != Route(name) ==> ValueAt(r, p) == ValueAt(form, p)
    ensures r.segments == form.segments
  {
    match Route(name)
    case AddressField(k) => form.(address := form.address[k := value])
    case DetailField(k) => form.(memberDetails := form.memberDetails[k := value])
    case TopField(k) => form.(fields := form.fields[k := value])
  }

  /** An `address.` name never touches the top level or the other `memberDetails` fields. */
  lemma AddressInputTouchesOnlyAddress(form: FormData, name: string, value: string)
    requires Text.StartsWith(name, ADDRESS_PREFIX)
    ensures InputChanged(form, name, value).fields == form.fields
    ensures InputChanged(form, name, value).memberDetails == form.memberDetails
    ensures InputChanged(form, name, value).address == form.address[FieldAfter(name, ADDRESS_PREFIX) := value]
  {
  }

  /** A `memberDetails.` name changes one detail field and leaves the address alone. */
  lemma DetailInputLeavesAddress(form: FormData, name: string, value: string)
    requires Text.StartsWith(name, DETAILS_PREFIX) && !ReshapesForm(name)
    ensures InputChanged(form, name, value).fields == form.fields
    ensures InputChanged(form, name, value).address == form.address
    ensures InputChanged(form, name, value).memberDetails == form.memberDetails[FieldAfter(name, DETAILS_PREFIX) := value]
  {
    assert name[..|DETAILS_PREFIX|][0] == 'm';
    assert !Text.StartsWith(name, ADDRESS_PREFIX);
  }

  /** `prev.segments.filter(id => id !== x)`: every occurrence of `x` removed, order kept. */
  function RemoveAll(s: seq<string>, x: string): (r: seq<string>)
    ensures x !in r
    ensures forall y :: y != x ==> (y in r <==> y in s)
    ensures x !in s ==> r == s
    ensures multiset(r) == multiset(s)[x := 0]
    ensures IsSubsequence(r, s)
    ensures NoDuplicates(s) ==> NoDuplicates(r)
  {
    if s == [] then []
    else
      var rest := RemoveAll(s[1..], x);
      assert s == [s[0]] + s[1..];
      assert multiset(s) == multiset{s[0]} + multiset(s[1..]);
      NoDuplicatesCons(s[0], s[1..]);
      SubsequenceCons(s[0], rest, s[1..]);
      if s[0] == x then rest
      else
        NoDuplicatesCons(s[0], rest);
        [s[0]] + rest
  }

  /** Removing a value is distributive over concatenation. */
  lemma {:induction false} RemoveAllAppend(a: seq<string>, b: seq<string>, x: string)
    ensures RemoveAll(a + b, x) == RemoveAll(a, x) + RemoveAll(b, x)
  {
    if a == [] {
      assert a + b == b;
    } else {
      assert (a + b)[1..] == a[1..] + b;
      assert (a + b)[0] == a[0];
      RemoveAllAppend(a[1..], b, x);
    }
  }

  /**
   * `handleSegmentChange`: a selected id is removed (every occurrence), an
   * unselected one is appended at the end.
   */
  function ToggleSegment(segs: seq<string>, id: string): (r: seq<string>)
    ensures id in r <==> id !in segs
    ensures forall y :: y != id ==> (y in r <==> y in segs)
    ensures id !in segs ==> r == segs + [id]
    ensures id in segs ==> IsSubsequence(r, segs) && multiset(r) == multiset(segs)[id := 0]
    ensures NoDuplicates(segs) ==> NoDuplicates(r)
  {
    if id in segs then RemoveAll(segs, id)
    else
      var r := segs + [id];
      assert NoDuplicates(segs) ==> NoDuplicates(r) by {
        if NoDuplicates(segs) {
          forall i, j | 0 <= i < j < |r| ensures r[i] != r[j] {
            if j == |segs| {
              assert r[i] == segs[i];
            } else {
              assert r[i] == segs[i] && r[j] == segs[j];
            }
          }
        }
      }
      r
  }

  /** Checking and then unchecking a box restores the list exactly. */
  lemma ToggleTwiceFromUnselected(segs: seq<string>, id: string)
    requires id !in segs
    ensures ToggleSegment(ToggleSegment(segs, id), id) == segs
  {
    RemoveAllAppend(segs, [id], id);
    assert RemoveAll([id], id) == [];
  }

  /**
   * On a duplicate-free list, toggling the same id twice gives back the same
   * selection; a selected id ends up last.
   */
  lemma ToggleTwiceSameSelection(segs: seq<string>, id: string)
    requires NoDuplicates(segs)
    ensures multiset(ToggleSegment(ToggleSegment(segs, id), id)) == multiset(segs)
    ensures id in segs ==> ToggleSegment(ToggleSegment(segs, id), id) == RemoveAll(segs, id) + [id]
  {
    if id in segs {
      NoDuplicatesCountsOnce(segs, id);
      var once := ToggleSegment(segs, id);
      assert multiset(once + [id]) == multiset(once) + multiset{id};
    } else {
      ToggleTwiceFromUnselected(segs, id);
    }
  }

  /** Unchecking a box that is not last and checking it again moves the id to the end. */
  lemma ToggleTwiceReorders()
    ensures ToggleSegment(ToggleSegment(["a", "b"], "a"), "a") == ["b", "a"]
  {
    assert "a" in ["a", "b"];
    assert RemoveAll(["b"], "a") == ["b"] by {
      assert ["b"][1..] == [];
    }
    assert RemoveAll(["a", "b"], "a") == ["b"] by {
      assert ["a", "b"][1..] == ["b"];
    }
  }

  const SUCCESS_MESSAGE := "Member added successfully!"
  const DEFAULT_ERROR := "Error adding member"

  /** The outcome of `POST /users/members`, supplied from outside. */
  datatype SubmitOutcome = Created(member: Member) | Rejected(message: Option<string>)

  /** `error.response?.data?.message || 'Error adding member'`. */
  function ErrorMessage(message: Option<string>): (text: string)
    ensures text != ""
    ensures message.Some? && message.value != "" ==> text == message.value
    ensures message.None? || message.value == "" ==> text == DEFAULT_ERROR
  {
    if message.Some? && message.value != "" then message.value else DEFAULT_ERROR
  }

  /** The form component's state. */
  class AddMemberForm {
    var loading: bool
    var error: string
    var success: string
    var formData: FormData

    constructor ()
      ensures !loading && error == "" && success == ""
      ensures formData == InitialForm
    {
      loading, error, success := false, "", "";
      formData := InitialForm;
    }

    /** An input changed: the form data takes the routed update, nothing else changes. */
    method HandleInputChange(name: string, value: string)
      requires !ReshapesForm(name)
      modifies this
      ensures formData == InputChanged(old(formData), name, value)
      ensures loading == old(loading) && error == old(error) && success == old(success)
    {
      formData := InputChanged(formData, name, value);
    }

    /** A segment check box changed. */
    method HandleSegmentChange(id: string)
      modifies this
      ensures formData == old(formData).(segments := ToggleSegment(old(formData).segments, id))
      ensures loading == old(loading) && error == old(error) && success == old(success)
    {
      formData := formData.(segments := ToggleSegment(formData.segments, id));
    }

    /** The part of `handleSubmit` before the request: busy, messages cleared, form posted as it is. */
    method BeginSubmit() returns (payload: FormData)
      modifies this
      ensures loading && error == "" && success == ""
      ensures formData == old(formData) && payload == formData
    {
      loading := true;
      error := "";
      success := "";
      payload := formData;
    }

    /**
     * The part after the request. On success the form is reset, the success
     * message set and the created member handed to `onMemberAdded` when the
     * parent passed one; on failure the error is shown and the form kept.
     * Either way `loading` ends false.
     */
    method FinishSubmit(outcome: SubmitOutcome, hasCallback: bool) returns (notified: Option<Member>)
      modifies this
      ensures !loading
      ensures outcome.Created? ==>
        formData == InitialForm && success == SUCCESS_MESSAGE && error == old(error) &&
        notified == (if hasCallback then Some(outcome.member) else None)
      ensures outcome.Rejected? ==>
        formData == old(formData) && success == old(success) && error == ErrorMessage(outcome.message) &&
        notified == None
    {
      notified := None;
      match outcome {
        case Created(member) =>
          success := SUCCESS_MESSAGE;
          formData := InitialForm;
          if hasCallback {
            notified := Some(member);
          }
        case Rejected(message) =>
          error := ErrorMessage(message);
      }
      loading := false;
    }

    /** `handleSubmit` as a whole, with the request's outcome as an input. */
    method HandleSubmit(outcome: SubmitOutcome, hasCallback: bool) returns (payload: FormData, notified: Option<Member>)
      modifies this
      ensures payload == old(formData)
      ensures !loading
      ensures outcome.Created? ==>
        formData == InitialForm && success == SUCCESS_MESSAGE && error == "" &&
        notified == (if hasCallback then Some(outcome.member) else None)
      ensures outcome.Rejected? ==>
        formData == old(formData) && success == "" && error == ErrorMessage(outcome.message) && error != "" &&
        notified == None
    {
      payload := BeginSubmit();
      notified := FinishSubmit(outcome, hasCallback);
    }

    /** The timer callback that hides the success message. */
    method ClearSuccess()
      modifies this
      ensures success == ""
      ensures loading == old(loading) && error == old(error) && formData == old(formData)
    {
      success := "";
    }
  }
}
