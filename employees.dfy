/** The local employee repository and its "EMP0001" number generator. */
module Employees {
  import opened Wrappers
  import opened Collections
  import Codes

  /** An employee; instants are integers. */
  datatype Employee = Employee(
    id: string,
    employeeNumber: string,
    name: string,
    email: string,
    mobile: string,
    phone: Option<string>,
    address: string,
    notes: Option<string>,
    createdAt: int,
    updatedAt: int)

  /** The fields handed to addEmployee; a carried `id` is spread after the generated one and wins. */
  datatype EmployeeInput = EmployeeInput(
    id: Option<string>,
    employeeNumber: string,
    name: string,
    email: string,
    mobile: string,
    phone: Option<string>,
    address: string,
    notes: Option<string>)

  /**
   * A partial employee for updateEmployee: `None` is a property the patch does
   * not carry; for the optional `phone` and `notes`, `Some(None)` is a property
   * present with value undefined.
   */
  datatype EmployeePatch = EmployeePatch(
    id: string,
    employeeNumber: Option<string>,
    name: Option<string>,
    email: Option<string>,
    mobile: Option<string>,
    phone: Option<Option<string>>,
    address: Option<string>,
    notes: Option<Option<string>>,
    createdAt: Option<int>)

  const EmployeeNumberPrefix: string := "EMP"

  /** `EMP` followed by `n` padded with zeros to at least four digits. */
  function EmployeeNumber(n: nat): string {
    Codes.Code(EmployeeNumberPrefix, n)
  }

  /**
   * The employee number with number `n` is "EMP" followed by its digits, which
   * read back as `n`; below 10000 they are zero-padded to exactly four.
   */
  lemma EmployeeNumberShape(n: nat)
    ensures EmployeeNumber(n)[..3] == "EMP" && Codes.AllDigits(EmployeeNumber(n)[3..])
    ensures n < 10000 <==> |EmployeeNumber(n)| == 7
    ensures Codes.ParseCode(EmployeeNumberPrefix, EmployeeNumber(n)) == Some(n)
  {
    Codes.FourDigitsBelow10000(n);
    Codes.ParseCodeOfCode(EmployeeNumberPrefix, n);
  }

  function IdIs(id: string): Employee -> bool {
    (e: Employee) => e.id == id
  }

  function IdIsNot(id: string): Employee -> bool {
    (e: Employee) => e.id != id
  }

  function HasEmployeeNumber(number: string): Employee -> bool {
    (e: Employee) => e.employeeNumber == number
  }

  function EmployeeNumberOf(e: Employee): string {
    e.employeeNumber
  }

  /** Some employee already carries `number` as its employeeNumber. */
  predicate NumberInUse(employees: seq<Employee>, number: string)
    ensures NumberInUse(employees, number) <==> Any(employees, HasEmployeeNumber(number))
  {
    exists i :: 0 <= i < |employees| && employees[i].employeeNumber == number
  }

  /** Every number from `lo` up to (not including) `hi` is in use. */
  predicate AllTaken(employees: seq<Employee>, lo: nat, hi: nat) {
    forall k :: lo <= k < hi ==> NumberInUse(employees, EmployeeNumber(k))
  }

  /** A taken number right after a taken range extends the range. */
  lemma AllTakenExtends(employees: seq<Employee>, lo: nat, hi: nat)
    requires lo <= hi && AllTaken(employees, lo, hi) && NumberInUse(employees, EmployeeNumber(hi))
    ensures AllTaken(employees, lo, hi + 1)
  {
    forall k | lo <= k < hi + 1 ensures NumberInUse(employees, EmployeeNumber(k)) {
      if k < hi {
        assert NumberInUse(employees, EmployeeNumber(k));
      }
    }
  }

  /**
   * `n` is the number generateEmployeeNumber settles on: the first number
   * from |employees| + 1 on whose code no employee carries.
   */
  ghost predicate LeastFreeNumber(employees: seq<Employee>, n: nat) {
    && |employees| + 1 <= n
    && !NumberInUse(employees, EmployeeNumber(n))
    && AllTaken(employees, |employees| + 1, n)
  }

  predicate HasEmployee(employees: seq<Employee>, id: string) {
    exists i :: 0 <= i < |employees| && employees[i].id == id
  }

  /** getEmployee: the first employee with the id, if any. */
  function GetEmployee(employees: seq<Employee>, id: string): (r: Option<Employee>)
    ensures r.None? <==> !HasEmployee(employees, id)
    ensures r.Some? ==> exists i :: 0 <= i < |employees| && employees[i] == r.value && r.value.id == id &&
                                    forall j :: 0 <= j < i ==> employees[j].id != id
  {
    Find(employees, IdIs(id))
  }

  /** The record updateEmployee stores: the patch spread over the old record. */
  function MergeEmployee(e: Employee, patch: EmployeePatch, now: int): (r: Employee)
    ensures r.id == patch.id && r.updatedAt == now
    ensures patch.employeeNumber.Some? ==> r.employeeNumber == patch.employeeNumber.value
    ensures patch.employeeNumber.None? ==> r.employeeNumber == e.employeeNumber
    ensures patch.name.Some? ==> r.name == patch.name.value
    ensures patch.name.None? ==> r.name == e.name
    ensures patch.email.Some? ==> r.email == patch.email.value
    ensures patch.email.None? ==> r.email == e.email
    ensures patch.mobile.Some? ==> r.mobile == patch.mobile.value
    ensures patch.mobile.None? ==> r.mobile == e.mobile
    ensures patch.phone.Some? ==> r.phone == patch.phone.value
    ensures patch.phone.None? ==> r.phone == e.phone
    ensures patch.address.Some? ==> r.address == patch.address.value
    ensures patch.address.None? ==> r.address == e.address
    ensures patch.notes.Some? ==> r.notes == patch.notes.value
    ensures patch.notes.None? ==> r.notes == e.notes
    ensures patch.createdAt.Some? ==> r.createdAt == patch.createdAt.value
    ensures patch.createdAt.None? ==> r.createdAt == e.createdAt
  {
    Employee(
      patch.id,
      patch.employeeNumber.GetOr(e.employeeNumber),
      patch.name.GetOr(e.name),
      patch.email.GetOr(e.email),
      patch.mobile.GetOr(e.mobile),
      patch.phone.GetOr(e.phone),
      patch.address.GetOr(e.address),
      patch.notes.GetOr(e.notes),
      patch.createdAt.GetOr(e.createdAt),
      now)
  }

  /** A patch that carries only the record's own id refreshes updatedAt and nothing else. */
  lemma IdOnlyPatchRefreshes(e: Employee, now: int)
    ensures MergeEmployee(e, EmployeePatch(e.id, None, None, None, None, None, None, None, None), now) ==
            e.(updatedAt := now)
  {
  }

  /** Applying the same patch again at the same instant changes nothing more. */
  lemma MergeEmployeeIsIdempotent(e: Employee, patch: EmployeePatch, now: int)
    ensures MergeEmployee(MergeEmployee(e, patch, now), patch, now) == MergeEmployee(e, patch, now)
  {
  }

  /** If every number from `start` up to `hi` is taken, there are at most |employees| of them. */
  lemma TakenNumbersBound(employees: seq<Employee>, start: nat, hi: nat, used: set<string>)
    requires start <= hi
    requires forall i :: 0 <= i < |employees| ==> employees[i].employeeNumber in used
    requires AllTaken(employees, start, hi)
    ensures hi - start <= |used|
  {
    forall k | start <= k < hi ensures Codes.Code(EmployeeNumberPrefix, k) in used {
      assert NumberInUse(employees, EmployeeNumber(k));
      var i :| 0 <= i < |employees| && employees[i].employeeNumber == EmployeeNumber(k);
    }
    Codes.CodeRangeBound(EmployeeNumberPrefix, start, hi, used);
  }

  /**
   * With EMP0001 and EMP0003 on file, the scan starts at 3 (two employees),
   * finds it taken and settles on EMP0004: the gap at 2 is not refilled.
   */
  lemma GapIsNotRefilled(a: Employee, b: Employee)
    requires a.employeeNumber == EmployeeNumber(1) && b.employeeNumber == EmployeeNumber(3)
    ensures LeastFreeNumber([a, b], 4) && EmployeeNumber(4) == "EMP0004"
    ensures !LeastFreeNumber([a, b], 2) && !LeastFreeNumber([a, b], 3)
  {
    var es := [a, b];
    assert es[1].employeeNumber == EmployeeNumber(3);
    assert NumberInUse(es, EmployeeNumber(3));
    EmployeeNumberShape(1);
    EmployeeNumberShape(3);
    EmployeeNumberShape(4);
    assert EmployeeNumber(4) != es[0].employeeNumber && EmployeeNumber(4) != es[1].employeeNumber;
    assert EmployeeNumber(4) == "EMP0004";
  }

  /** The employee collection of the local store. */
  class EmployeeStore {
    var employees: seq<Employee>

    constructor ()
      ensures employees == []
    {
      employees := [];
    }

    /** addEmployee: appends the new record and returns it. */
    method AddEmployee(input: EmployeeInput, freshId: string, now: int) returns (e: Employee)
      modifies this
      ensures employees == old(employees) + [e]
      ensures e.id == input.id.GetOr(freshId)
      ensures e.employeeNumber == input.employeeNumber && e.name == input.name
      ensures e.email == input.email && e.mobile == input.mobile && e.phone == input.phone
      ensures e.address == input.address && e.notes == input.notes
      ensures e.createdAt == now && e.updatedAt == now
    {
      e := Employee(input.id.GetOr(freshId), input.employeeNumber, input.name, input.email,
                    input.mobile, input.phone, input.address, input.notes, now, now);
      employees := employees + [e];
    }

    /** updateEmployee: merges the patch into the first employee with its id; an unknown id changes nothing. */
    method UpdateEmployee(patch: EmployeePatch, now: int) returns (r: Option<Employee>)
      modifies this
      ensures !HasEmployee(old(employees), patch.id) ==> r.None? && employees == old(employees)
      ensures HasEmployee(old(employees), patch.id) ==>
                var i := FirstIndex(old(employees), IdIs(patch.id)).value;
                r == Some(MergeEmployee(old(employees)[i], patch, now)) &&
                employees == old(employees)[i := r.value]
      ensures r.Some? ==> r.value.id == patch.id && r.value.updatedAt == now
    {
      var index := FirstIndex(employees, IdIs(patch.id));
      if index.None? {
        return None;
      }
      var updated := MergeEmployee(employees[index.value], patch, now);
      employees := employees[index.value := updated];
      r := Some(updated);
    }

    /** deleteEmployee: removes every employee with the id. */
    method DeleteEmployee(id: string) returns (removed: bool)
      modifies this
      ensures removed <==> HasEmployee(old(employees), id)
      ensures !removed ==> employees == old(employees)
      ensures removed ==> employees == Filter(old(employees), IdIsNot(id))
    {
      var remaining := Filter(employees, IdIsNot(id));
      FilterKeepsLength(employees, IdIsNot(id));
      if |employees| == |remaining| {
        return false;
      }
      employees := remaining;
      removed := true;
    }

    /**
     * generateEmployeeNumber: starts at |employees| + 1 and steps past every
     * number already carried by an employee; the scan takes at most |employees| steps.
     */
    method GenerateEmployeeNumber() returns (employeeNumber: string, ghost number: nat)
      ensures employeeNumber == EmployeeNumber(number)
      ensures !NumberInUse(employees, employeeNumber)
      ensures LeastFreeNumber(employees, number)
      ensures number <= 2 * |employees| + 1
    {
      ghost var used := Image(employees, EmployeeNumberOf);
      assert forall i :: 0 <= i < |employees| ==> EmployeeNumberOf(employees[i]) == employees[i].employeeNumber;
      ghost var start := |employees| + 1;
      var n := |employees| + 1;
      employeeNumber := EmployeeNumber(n);
      while NumberInUse(employees, employeeNumber)
        invariant start <= n
        invariant employeeNumber == EmployeeNumber(n)
        invariant AllTaken(employees, start, n)
        invariant n - start <= |used|
        decreases |used| - (n - start)
      {
        AllTakenExtends(employees, start, n);
        TakenNumbersBound(employees, start, n + 1, used);
        n := n + 1;
        employeeNumber := EmployeeNumber(n);
      }
      number := n;
    }
  }
}
