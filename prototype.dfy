/** The per-employee dictionaries of hooks/useProductivityData.ts as the
    code writes them: plain object literals indexed by the employee's name.
    A plain object already answers, through Object.prototype, for keys such
    as "constructor" or "toString"; the "is this name new?" test then sees a
    truthy inherited member, no set is created, and the following `.add`
    throws a TypeError. Engine.CollectWorkDays is the intended behaviour:
    a dictionary without inherited keys, with which utilization is defined
    for every name. */
module PlainObjects {
  import opened Types
  import opened Engine

  /** The keys every object literal inherits from Object.prototype. */
  const InheritedKeys: set<string> := {
    "constructor", "__proto__", "toString", "toLocaleString", "valueOf",
    "hasOwnProperty", "isPrototypeOf", "propertyIsEnumerable",
    "__defineGetter__", "__defineSetter__", "__lookupGetter__", "__lookupSetter__"
  }

  /** The work-day collection of calculateUtilization as written. `None`
      stands for the TypeError raised at the first log whose employee name
      is an inherited key. */
  function WorkDaysAsWritten(logs: seq<ProductivityLog>): Option<map<string, set<Day>>>
    decreases |logs|
  {
    if logs == [] then Some(map[])
    else
      match WorkDaysAsWritten(logs[..|logs| - 1])
      case None => None
      case Some(m) =>
        var l := logs[|logs| - 1];
        if l.employeeName in InheritedKeys then None
        else Some(m[l.employeeName := (if l.employeeName in m then m[l.employeeName] else {}) + {l.date}])
  }

  /** One log by an employee called "constructor" is enough: the hook throws
      and the dashboard cannot compute its KPIs, while the intended
      utilization is that log's hours over one eight-hour day. */
  lemma ConstructorNameThrows(l: ProductivityLog)
    requires l.employeeName == "constructor"
    ensures WorkDaysAsWritten([l]) == None
    ensures Utilization([l]) == l.hours / WorkHoursPerDay * 100.0
  {
    assert [l][..0] == [];
    assert WorkDays([l]) == {(l.employeeName, l.date)} by {
      assert l in [l];
    }
    assert |WorkDays([l])| == 1;
    assert SumHours([l]) == l.hours by {
      assert SumHours([l][..0]) == 0.0;
    }
  }

  /** Any inherited name anywhere in the logs makes the collection throw. */
  lemma {:induction false} InheritedNameThrows(logs: seq<ProductivityLog>, i: nat)
    requires i < |logs| && logs[i].employeeName in InheritedKeys
    ensures WorkDaysAsWritten(logs) == None
    decreases |logs|
  {
    if i < |logs| - 1 {
      var init := logs[..|logs| - 1];
      assert init[i] == logs[i];
      InheritedNameThrows(init, i);
    }
  }

  /** Without inherited names the code as written collects what the
      intended dictionary holds: each name's set of dates. */
  lemma {:induction false} WorkDaysAsWrittenAgrees(logs: seq<ProductivityLog>)
    requires forall l :: l in logs ==> l.employeeName !in InheritedKeys
    ensures WorkDaysAsWritten(logs).Some?
    ensures forall n :: n in WorkDaysAsWritten(logs).value <==> n in NameSet(logs)
    ensures forall n :: n in WorkDaysAsWritten(logs).value ==> WorkDaysAsWritten(logs).value[n] == DatesOf(logs, n)
    decreases |logs|
  {
    if logs != [] {
      var init := logs[..|logs| - 1];
      var l := logs[|logs| - 1];
      assert logs == init + [l];
      assert forall x :: x in logs <==> x in init || x == l;
      WorkDaysAsWrittenAgrees(init);
      var m := WorkDaysAsWritten(init).value;
      assert l in logs;
      var m' := WorkDaysAsWritten(logs).value;
      assert m' == m[l.employeeName := (if l.employeeName in m then m[l.employeeName] else {}) + {l.date}];
      assert NameSet(logs) == NameSet(init) + {l.employeeName};
      forall n | n in m'
        ensures m'[n] == DatesOf(logs, n)
      {
        if n == l.employeeName {
          assert DatesOf(logs, n) == DatesOf(init, n) + {l.date};
          if n !in m {
            assert n !in NameSet(init);
            assert DatesOf(init, n) == {};
          }
        } else {
          assert DatesOf(logs, n) == DatesOf(init, n);
        }
      }
    }
  }
}
