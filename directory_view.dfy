/**
 * The employee directory view (src/ViewEmployees.js): the list of employee
 * records fetched from the backend, a search query, and an update overlay
 * holding a draft of the six editable fields of one selected record.
 *
 * The list operations (delete filter, lookup, update patch, name search,
 * first-name truncation) are functions on sequences; the handlers that
 * change the view's state are methods of `DirectoryView`. The outcome of
 * every network request, and the answer to the delete confirmation, are
 * inputs of the handler that awaits them.
 */
module Directory {
  import opened Text

  /**
   * One record as the backend returns it. `name` may be missing (it is
   * read through `emp.name || ''`); the other fields are always present.
   */
  datatype Employee = Employee(
    employee_id: string,
    name: Option<string>,
    first_name: string,
    last_name: string,
    email: string,
    phone_number: string,
    department: string,
    date_of_joining: string,
    role: string)

  /** The six fields the update overlay edits. */
  datatype Draft = Draft(
    name: Option<string>,
    email: string,
    phone_number: string,
    department: string,
    date_of_joining: string,
    role: string)

  /** The inputs of the update overlay, one per draft field (their `name` attributes). */
  datatype DraftField = NameInput | EmailInput | PhoneInput | DepartmentInput | DateInput | RoleInput

  // The messages the view shows above the table.
  function DeletedMessage(): string { "Employee deleted successfully." }
  function DeleteFailedMessage(): string { "Failed to delete employee. Please try again." }
  function UpdatedMessage(): string { "Employee updated successfully." }
  function UpdateFailedMessage(): string { "Failed to update employee. Please try again." }
  function FetchFailedMessage(): string { "Failed to fetch employees. Please try again later." }

  /** The draft the view starts with: every field ''. */
  const EmptyDraft := Draft(Some(""), "", "", "", "", "")

  // ---------------------------------------------------------------------
  // Delete

  /** The list without the records whose id is `id` (the filter after a confirmed delete). */
  function RemoveById(list: seq<Employee>, id: string): (r: seq<Employee>)
    ensures forall e :: multiset(r)[e] == if e.employee_id == id then 0 else multiset(list)[e]
    ensures forall i :: 0 <= i < |r| ==> r[i].employee_id != id
  {
    Filter(list, (e: Employee) => e.employee_id != id)
  }

  /** Removal keeps the remaining records in their order. */
  lemma RemoveKeepsOrder(list: seq<Employee>, id: string)
    ensures IsSubsequence(RemoveById(list, id), list)
  {
    FilterIsSubsequence(list, (e: Employee) => e.employee_id != id);
  }

  /** Removing an id nobody has changes nothing. */
  lemma RemoveAbsentId(list: seq<Employee>, id: string)
    requires forall i :: 0 <= i < |list| ==> list[i].employee_id != id
    ensures RemoveById(list, id) == list
  {
    FilterKeepsAll(list, (e: Employee) => e.employee_id != id);
  }

  /** Deleting the same id twice is deleting it once. */
  lemma RemoveIdempotent(list: seq<Employee>, id: string)
    ensures RemoveById(RemoveById(list, id), id) == RemoveById(list, id)
  {
    FilterIdempotent(list, (e: Employee) => e.employee_id != id);
  }

  // ---------------------------------------------------------------------
  // Lookup and the update draft

  /** Index of the first record with id `id`, or `|list|` when there is none. */
  function FindIndex(list: seq<Employee>, id: string): (i: nat)
    ensures i <= |list|
    ensures i < |list| ==> list[i].employee_id == id
    ensures forall j :: 0 <= j < i ==> list[j].employee_id != id
  {
    if list == [] then 0
    else if list[0].employee_id == id then 0
    else 1 + FindIndex(list[1..], id)
  }

  /** `employees.find(...)`: the first record with id `id`, if any. */
  function FindById(list: seq<Employee>, id: string): (r: Option<Employee>)
    ensures r.None? <==> forall j :: 0 <= j < |list| ==> list[j].employee_id != id
    ensures r.Some? ==> r.value.employee_id == id
    ensures r.Some? ==> exists i :: 0 <= i < |list| && list[i] == r.value && forall j :: 0 <= j < i ==> list[j].employee_id != id
  {
    var i := FindIndex(list, id);
    if i < |list| then Some(list[i]) else None
  }

  /** The six editable fields of a record. */
  function DraftOf(e: Employee): Draft
  {
    Draft(e.name, e.email, e.phone_number, e.department, e.date_of_joining, e.role)
  }

  /** Two records give the same draft exactly when they differ at most in id, first name and last name. */
  lemma DraftOfCopiesEditableFields(e: Employee, e': Employee)
    ensures DraftOf(e) == DraftOf(e') <==>
      e.(employee_id := e'.employee_id, first_name := e'.first_name, last_name := e'.last_name) == e'
  {
  }

  /** `{ ...emp, ...draft }`: the record with its six editable fields taken from the draft. */
  function ApplyDraft(e: Employee, d: Draft): (r: Employee)
    ensures DraftOf(r) == d
    ensures r.employee_id == e.employee_id && r.first_name == e.first_name && r.last_name == e.last_name
    ensures d == DraftOf(e) ==> r == e
  {
    e.(name := d.name, email := d.email, phone_number := d.phone_number,
       department := d.department, date_of_joining := d.date_of_joining, role := d.role)
  }

  /** A later draft replaces an earlier one completely. */
  lemma ApplyDraftTwice(e: Employee, d: Draft, d': Draft)
    ensures ApplyDraft(ApplyDraft(e, d), d') == ApplyDraft(e, d')
  {
  }

  /** The text an input of the overlay shows for its field (a missing name shows as none). */
  function DraftValue(d: Draft, f: DraftField): Option<string>
  {
    match f
    case NameInput => d.name
    case EmailInput => Some(d.email)
    case PhoneInput => Some(d.phone_number)
    case DepartmentInput => Some(d.department)
    case DateInput => Some(d.date_of_joining)
    case RoleInput => Some(d.role)
  }

  /** `{ ...prevData, [name]: value }` on the draft. */
  function SetDraftField(d: Draft, f: DraftField, value: string): (r: Draft)
    ensures DraftValue(r, f) == Some(value)
    ensures forall g :: g != f ==> DraftValue(r, g) == DraftValue(d, g)
  {
    match f
    case NameInput => d.(name := Some(value))
    case EmailInput => d.(email := value)
    case PhoneInput => d.(phone_number := value)
    case DepartmentInput => d.(department := value)
    case DateInput => d.(date_of_joining := value)
    case RoleInput => d.(role := value)
  }

  // ---------------------------------------------------------------------
  // Update

  /** The list after a successful update: records with the selected id take the draft, the rest stay. */
  function PatchById(list: seq<Employee>, selected: Option<string>, d: Draft): (r: seq<Employee>)
    ensures |r| == |list|
    ensures forall i :: 0 <= i < |list| ==>
      && r[i].employee_id == list[i].employee_id
      && r[i].first_name == list[i].first_name
      && r[i].last_name == list[i].last_name
    ensures forall i :: 0 <= i < |list| && selected == Some(list[i].employee_id) ==> DraftOf(r[i]) == d
    ensures forall i :: 0 <= i < |list| && selected != Some(list[i].employee_id) ==> r[i] == list[i]
  {
    if list == [] then []
    else
      var head := if selected == Some(list[0].employee_id) then ApplyDraft(list[0], d) else list[0];
      [head] + PatchById(list[1..], selected, d)
  }

  /** Submitting the same draft again changes nothing more. */
  lemma {:induction false} PatchIdempotent(list: seq<Employee>, selected: Option<string>, d: Draft)
    ensures PatchById(PatchById(list, selected, d), selected, d) == PatchById(list, selected, d)
  {
    if list != [] {
      PatchIdempotent(list[1..], selected, d);
    }
  }

  /** With no record selected the patch is the identity. */
  lemma PatchWithoutSelection(list: seq<Employee>, d: Draft)
    ensures PatchById(list, None, d) == list
  {
  }

  // ---------------------------------------------------------------------
  // Search and display

  /** `emp.name || ''`: a missing name reads as ''. */
  function NameOf(e: Employee): string
  {
    match e.name
    case Some(n) => n
    case None => ""
  }

  /** The record's lower-cased name contains the lower-cased query. */
  predicate Matches(e: Employee, query: string)
  {
    Contains(ToLower(NameOf(e)), ToLower(query))
  }

  /** A record matches exactly when the lower-cased query occurs somewhere in its lower-cased name. */
  lemma MatchesIff(e: Employee, query: string)
    ensures Matches(e, query) <==> exists i :: OccursAt(ToLower(NameOf(e)), ToLower(query), i)
  {
    ContainsIff(ToLower(NameOf(e)), ToLower(query));
  }

  /** `filteredEmployees`: the records whose name matches the query, in list order. */
  function SearchByName(list: seq<Employee>, query: string): (r: seq<Employee>)
    ensures forall e :: multiset(r)[e] == if Matches(e, query) then multiset(list)[e] else 0
    ensures forall i :: 0 <= i < |r| ==> Matches(r[i], query)
  {
    Filter(list, (e: Employee) => Matches(e, query))
  }

  /** The search result keeps the list's order. */
  lemma SearchKeepsOrder(list: seq<Employee>, query: string)
    ensures IsSubsequence(SearchByName(list, query), list)
  {
    FilterIsSubsequence(list, (e: Employee) => Matches(e, query));
  }

  /** The empty query keeps every record, nameless ones included. */
  lemma EmptyQueryKeepsAll(list: seq<Employee>)
    ensures SearchByName(list, "") == list
  {
    forall i | 0 <= i < |list|
      ensures Matches(list[i], "")
    {
      ContainsEmpty(ToLower(NameOf(list[i])));
    }
    FilterKeepsAll(list, (e: Employee) => Matches(e, ""));
  }

  /** The query's letter case makes no difference. */
  lemma SearchIgnoresQueryCase(list: seq<Employee>, query: string)
    ensures SearchByName(list, ToLower(query)) == SearchByName(list, query)
  {
    ToLowerIdempotent(query);
    FilterAgrees(list, (e: Employee) => Matches(e, ToLower(query)), (e: Employee) => Matches(e, query));
  }

  /** A record without a name matches only the empty query. */
  lemma NamelessMatchesOnlyEmpty(e: Employee, query: string)
    requires e.name.None?
    ensures Matches(e, query) <==> query == ""
  {
    if query != "" {
      assert ToLower(query) != "";
    }
  }

  /** The first name as the table shows it: cut to ten characters followed by "..." when longer. */
  function DisplayFirstName(s: string): (r: string)
    ensures |s| <= 10 ==> r == s
    ensures |s| > 10 ==> |r| == 13 && r[..10] == s[..10] && r[10..] == "..."
  {
    if |s| > 10 then s[..10] + "..." else s
  }

  // ---------------------------------------------------------------------
  // The view component

  class DirectoryView {
    var employees: seq<Employee>
    var searchQuery: string
    var selectedEmployee: Option<string>
    var updatedEmployeeData: Draft
    var showUpdateForm: bool
    var responseMessage: string

    /** The overlay is only ever open on a selected record. */
    predicate Valid()
      reads this
    {
      showUpdateForm ==> selectedEmployee.Some?
    }

    constructor ()
      ensures Valid()
      ensures employees == [] && searchQuery == "" && selectedEmployee == None
      ensures updatedEmployeeData == EmptyDraft && !showUpdateForm && responseMessage == ""
    {
      employees := [];
      searchQuery := "";
      selectedEmployee := None;
      updatedEmployeeData := EmptyDraft;
      showUpdateForm := false;
      responseMessage := "";
    }

    /** The rows the table shows. */
    function FilteredEmployees(): (r: seq<Employee>)
      reads this
      ensures forall e :: multiset(r)[e] == if Matches(e, searchQuery) then multiset(employees)[e] else 0
      ensures IsSubsequence(r, employees)
    {
      SearchKeepsOrder(employees, searchQuery);
      SearchByName(employees, searchQuery)
    }

    /** The fetch on mount settles: the list that came back, or none. */
    method LoadEmployees(fetched: Option<seq<Employee>>)
      requires Valid()
      modifies this
      ensures Valid()
      ensures fetched.Some? ==> employees == fetched.value && responseMessage == ""
      ensures fetched.None? ==> employees == old(employees) && responseMessage == FetchFailedMessage()
      ensures searchQuery == old(searchQuery) && selectedEmployee == old(selectedEmployee)
      ensures updatedEmployeeData == old(updatedEmployeeData) && showUpdateForm == old(showUpdateForm)
    {
      match fetched {
        case Some(list) =>
          employees := list;
          responseMessage := "";
        case None =>
          responseMessage := FetchFailedMessage();
      }
    }

    /** The Delete button: `confirmed` is the dialog's answer, `succeeded` the request's outcome. */
    method HandleDelete(employeeId: string, confirmed: bool, succeeded: bool)
      requires Valid()
      modifies this
      ensures Valid()
      ensures confirmed && succeeded ==>
        employees == RemoveById(old(employees), employeeId) && responseMessage == DeletedMessage()
      ensures confirmed && !succeeded ==>
        employees == old(employees) && responseMessage == DeleteFailedMessage()
      ensures !confirmed ==> employees == old(employees) && responseMessage == old(responseMessage)
      ensures searchQuery == old(searchQuery) && selectedEmployee == old(selectedEmployee)
      ensures updatedEmployeeData == old(updatedEmployeeData) && showUpdateForm == old(showUpdateForm)
    {
      if confirmed {
        if succeeded {
          employees := RemoveById(employees, employeeId);
          responseMessage := DeletedMessage();
        } else {
          responseMessage := DeleteFailedMessage();
        }
      }
    }

    /**
     * The Update button: copy the record's six editable fields into the
     * draft and open the overlay. On an id that is not in the list the
     * handler fails before changing anything (`found` is false).
     */
    method HandleUpdate(employeeId: string) returns (found: bool)
      requires Valid()
      modifies this
      ensures Valid()
      ensures found <==> exists i :: 0 <= i < |employees| && employees[i].employee_id == employeeId
      ensures found ==>
        && updatedEmployeeData == DraftOf(FindById(employees, employeeId).value)
        && selectedEmployee == Some(employeeId)
        && showUpdateForm
        && responseMessage == ""
      ensures !found ==>
        && updatedEmployeeData == old(updatedEmployeeData)
        && selectedEmployee == old(selectedEmployee)
        && showUpdateForm == old(showUpdateForm)
        && responseMessage == old(responseMessage)
      ensures employees == old(employees) && searchQuery == old(searchQuery)
    {
      var employeeToUpdate := FindById(employees, employeeId);
      if employeeToUpdate.None? {
        return false;
      }
      updatedEmployeeData := DraftOf(employeeToUpdate.value);
      selectedEmployee := Some(employeeId);
      showUpdateForm := true;
      responseMessage := "";
      found := true;
    }

    /** The overlay's submit settles: `saved` is the update request's outcome. */
    method HandleUpdateSubmit(saved: bool)
      requires Valid()
      modifies this
      ensures Valid()
      ensures saved ==>
        && employees == PatchById(old(employees), selectedEmployee, updatedEmployeeData)
        && !showUpdateForm
        && responseMessage == UpdatedMessage()
      ensures !saved ==>
        && employees == old(employees)
        && showUpdateForm == old(showUpdateForm)
        && responseMessage == UpdateFailedMessage()
      ensures searchQuery == old(searchQuery) && selectedEmployee == old(selectedEmployee)
      ensures updatedEmployeeData == old(updatedEmployeeData)
      // The overlay is open only on a selection (Valid), so a save from it
      // patches exactly the records with the selected id.
      ensures saved && old(showUpdateForm) ==> forall i :: 0 <= i < |employees| ==>
        && (old(employees)[i].employee_id == selectedEmployee.value ==> DraftOf(employees[i]) == updatedEmployeeData)
        && (old(employees)[i].employee_id != selectedEmployee.value ==> employees[i] == old(employees)[i])
    {
      if saved {
        showUpdateForm := false;
        employees := PatchById(employees, selectedEmployee, updatedEmployeeData);
        responseMessage := UpdatedMessage();
      } else {
        responseMessage := UpdateFailedMessage();
      }
    }

    /** The overlay's Cancel button. */
    method CancelUpdate()
      requires Valid()
      modifies this
      ensures Valid() && !showUpdateForm
      ensures employees == old(employees) && searchQuery == old(searchQuery)
      ensures selectedEmployee == old(selectedEmployee) && updatedEmployeeData == old(updatedEmployeeData)
      ensures responseMessage == old(responseMessage)
    {
      showUpdateForm := false;
    }

    /** The `onChange` handler of the overlay's inputs. */
    method HandleChange(field: DraftField, value: string)
      requires Valid()
      modifies this
      ensures Valid()
      ensures updatedEmployeeData == SetDraftField(old(updatedEmployeeData), field, value)
      ensures employees == old(employees) && searchQuery == old(searchQuery)
      ensures selectedEmployee == old(selectedEmployee) && showUpdateForm == old(showUpdateForm)
      ensures responseMessage == old(responseMessage)
    {
      updatedEmployeeData := SetDraftField(updatedEmployeeData, field, value);
    }

    /** The search box's `onChange` handler. */
    method HandleSearch(query: string)
      requires Valid()
      modifies this
      ensures Valid() && searchQuery == query
      ensures employees == old(employees) && selectedEmployee == old(selectedEmployee)
      ensures updatedEmployeeData == old(updatedEmployeeData) && showUpdateForm == old(showUpdateForm)
      ensures responseMessage == old(responseMessage)
    {
      searchQuery := query;
    }
  }
}
