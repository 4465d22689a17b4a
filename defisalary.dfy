/*
 * The Defisalary payroll contract: an owner-managed registry of employees
 * paid a monthly USD salary in ETH, converted at an injected price-feed answer.
 * Reverts are modelled as `Err` results that leave the state untouched; the
 * calling account, the current day of the month and the current (year, month)
 * period are parameters instead of transaction and block context.
 */
module DefisalaryContract {

  import opened Results
  import PriceConversion

  /** An account address. */
  type Address = nat

  /** Why a call reverts; the comments give the contract's revert reasons. */
  datatype Error =
    | OwnableUnauthorizedAccount(account: Address)
    | InvalidPaymentDay       // "Invalid payment day"
    | EmployeeAlreadyExists   // "Employee already exists"
    | EmployeeNotFound
    | EmployeeNotActive       // "Employee not active"
    | UpkeepNotNeeded         // "Upkeep not needed"
    | InsufficientFunds
    | OracleUnavailable

  /** The record getEmployeeDetails returns. */
  datatype Employee = Employee(
    id: nat,
    walletAddress: Address,
    name: string,
    salaryUSD: nat,
    salaryPaymentDay: nat,
    isActive: bool)

  /** A payroll cycle: the calendar month in which a salary is settled. */
  datatype Period = Period(year: nat, month: nat)

  datatype PaymentRecord = PaymentRecord(
    employeeId: nat, walletAddress: Address, amountUSD: nat, amountWei: nat, period: Period)

  /** The contract's events, in emission order. */
  datatype Event =
    | EmployeeAdded(id: nat, walletAddress: Address, name: string, salaryUSD: nat)
    | EmployeeUpdated(id: nat, walletAddress: Address)
    | EmployeeRemoved(id: nat, walletAddress: Address)
    | SalaryPaid(id: nat, walletAddress: Address, amountUSD: nat, amountWei: nat)

  /** Payment days run from 1 to 29. */
  predicate ValidPaymentDay(day: nat) {
    1 <= day <= 29
  }

  predicate NoDuplicates(s: seq<Address>) {
    forall i, j :: 0 <= i < j < |s| ==> s[i] != s[j]
  }

  function TotalPaidUSD(payments: seq<PaymentRecord>): nat {
    if payments == [] then 0
    else TotalPaidUSD(payments[..|payments| - 1]) + payments[|payments| - 1].amountUSD
  }

  /** The position of w in s. */
  method IndexOf(s: seq<Address>, w: Address) returns (i: nat)
    requires w in s
    ensures i < |s| && s[i] == w
    ensures w !in s[..i]
  {
    i := 0;
    while s[i] != w
      invariant i < |s|
      invariant w in s[i..]
      invariant w !in s[..i]
      decreases |s| - i
    {
      i := i + 1;
    }
  }

  /** Removal from a Solidity array: the last element moves into slot i, then the array shrinks. */
  function SwapRemove(s: seq<Address>, i: nat): (r: seq<Address>)
    requires i < |s|
    ensures |r| == |s| - 1
  {
    s[i := s[|s| - 1]][..|s| - 1]
  }

  /** Swap-removal drops exactly the element at i and keeps the others distinct. */
  lemma SwapRemoveMembers(s: seq<Address>, i: nat)
    requires i < |s| && NoDuplicates(s)
    ensures NoDuplicates(SwapRemove(s, i))
    ensures forall w :: w in SwapRemove(s, i) <==> w in s && w != s[i]
  {
    var r, last := SwapRemove(s, i), |s| - 1;
    forall w | w in s && w != s[i]
      ensures w in r
    {
      var k :| 0 <= k < |s| && s[k] == w;
      if k == last {
        assert r[i] == w;
      } else {
        assert r[k] == w;
      }
    }
  }

  /**
   * The registry's consistency: records are keyed by their wallet, ids are
   * 1 .. nextId - 1 and name their wallets one to one, payment days are valid,
   * and the active list holds each active wallet exactly once.
   */
  ghost predicate RegistryInvariant(
    employees: map<Address, Employee>, addresses: seq<Address>,
    nextId: nat, idToAddress: map<nat, Address>)
  {
    && nextId >= 1
    && (forall w :: w in employees ==>
          && employees[w].walletAddress == w
          && 1 <= employees[w].id < nextId
          && ValidPaymentDay(employees[w].salaryPaymentDay)
          && employees[w].id in idToAddress
          && idToAddress[employees[w].id] == w)
    && (forall id :: id in idToAddress <==> 1 <= id < nextId)
    && (forall id :: id in idToAddress ==>
          idToAddress[id] in employees && employees[idToAddress[id]].id == id)
    && NoDuplicates(addresses)
    && (forall w :: w in addresses <==> w in employees && employees[w].isActive)
  }

  lemma AddKeepsInvariant(
    employees: map<Address, Employee>, addresses: seq<Address>,
    nextId: nat, idToAddress: map<nat, Address>, e: Employee)
    requires RegistryInvariant(employees, addresses, nextId, idToAddress)
    requires e.walletAddress !in employees && e.id == nextId && e.isActive
    requires ValidPaymentDay(e.salaryPaymentDay)
    ensures RegistryInvariant(employees[e.walletAddress := e], addresses + [e.walletAddress],
                              nextId + 1, idToAddress[nextId := e.walletAddress])
  {
  }

  lemma UpdateKeepsInvariant(
    employees: map<Address, Employee>, addresses: seq<Address>,
    nextId: nat, idToAddress: map<nat, Address>, w: Address, name: string, salaryUSD: nat, day: nat)
    requires RegistryInvariant(employees, addresses, nextId, idToAddress)
    requires w in employees && ValidPaymentDay(day)
    ensures RegistryInvariant(
      employees[w := employees[w].(name := name, salaryUSD := salaryUSD, salaryPaymentDay := day)],
      addresses, nextId, idToAddress)
  {
  }

  lemma RemoveKeepsInvariant(
    employees: map<Address, Employee>, addresses: seq<Address>,
    nextId: nat, idToAddress: map<nat, Address>, i: nat)
    requires RegistryInvariant(employees, addresses, nextId, idToAddress)
    requires i < |addresses|
    ensures addresses[i] in employees
    ensures RegistryInvariant(
      employees[addresses[i] := employees[addresses[i]].(isActive := false)],
      SwapRemove(addresses, i), nextId, idToAddress)
  {
    SwapRemoveMembers(addresses, i);
  }

  class Defisalary {
    /** Ownable: the deploying account. */
    const owner: Address
    /** Every employee ever registered, by wallet. */
    var employees: map<Address, Employee>
    /** The wallets of the active employees. */
    var employeeAddresses: seq<Address>
    /** The id the next registration receives. */
    var nextEmployeeId: nat
    var employeeIdToAddress: map<nat, Address>
    var totalActiveEmployees: nat
    /** The last period each employee was paid in. */
    var lastPaidPeriod: map<Address, Period>
    /** The latest answer of the ETH/USD price feed (8 decimals). */
    var priceFeedAnswer: int
    /** The contract's ETH balance in wei. */
    var balance: nat
    var paymentHistory: seq<PaymentRecord>
    var totalSalaryPaidUSD: nat
    var events: seq<Event>

    ghost predicate Valid()
      reads this
    {
      && RegistryInvariant(employees, employeeAddresses, nextEmployeeId, employeeIdToAddress)
      && totalActiveEmployees == |employeeAddresses|
      && lastPaidPeriod.Keys <= employees.Keys
      && totalSalaryPaidUSD == TotalPaidUSD(paymentHistory)
    }

    /** Deployment: the deployer becomes the owner; the registry is empty. */
    constructor (deployer: Address, feedAnswer: int)
      ensures Valid()
      ensures owner == deployer
      ensures employees == map[] && employeeAddresses == [] && employeeIdToAddress == map[]
      ensures nextEmployeeId == 1 && totalActiveEmployees == 0
      ensures lastPaidPeriod == map[] && paymentHistory == [] && totalSalaryPaidUSD == 0
      ensures priceFeedAnswer == feedAnswer && balance == 0 && events == []
    {
      owner := deployer;
      employees := map[];
      employeeAddresses := [];
      nextEmployeeId := 1;
      employeeIdToAddress := map[];
      totalActiveEmployees := 0;
      lastPaidPeriod := map[];
      priceFeedAnswer := feedAnswer;
      balance := 0;
      paymentHistory := [];
      totalSalaryPaidUSD := 0;
      events := [];
    }

    /** The state reached by registering e on top of a consistent registry is valid. */
    lemma ValidAfterAdd(employees0: map<Address, Employee>, addresses0: seq<Address>,
                        idToAddress0: map<nat, Address>, e: Employee)
      requires RegistryInvariant(employees0, addresses0, e.id, idToAddress0)
      requires e.walletAddress !in employees0 && e.isActive && ValidPaymentDay(e.salaryPaymentDay)
      requires employees == employees0[e.walletAddress := e]
      requires employeeAddresses == addresses0 + [e.walletAddress]
      requires nextEmployeeId == e.id + 1 && employeeIdToAddress == idToAddress0[e.id := e.walletAddress]
      requires totalActiveEmployees == |employeeAddresses|
      requires lastPaidPeriod.Keys <= employees0.Keys && totalSalaryPaidUSD == TotalPaidUSD(paymentHistory)
      ensures Valid()
    {
      AddKeepsInvariant(employees0, addresses0, e.id, idToAddress0, e);
    }

    /**
     * addEmployee (owner only): registers a new wallet under the next id,
     * active, and appends it to the active addresses.
     */
    method AddEmployee(caller: Address, wallet: Address, name: string, salaryUSD: nat, paymentDay: nat)
      returns (r: Result<nat, Error>)
      requires Valid()
      modifies this
      ensures Valid()
      ensures caller != owner ==> r == Err(OwnableUnauthorizedAccount(caller))
      ensures caller == owner && !ValidPaymentDay(paymentDay) ==> r == Err(InvalidPaymentDay)
      ensures caller == owner && ValidPaymentDay(paymentDay) && wallet in old(employees) ==>
                r == Err(EmployeeAlreadyExists)
      ensures r.Ok? <==> caller == owner && ValidPaymentDay(paymentDay) && wallet !in old(employees)
      ensures r.Err? ==> unchanged(this)
      ensures r.Ok? ==>
        && r.value == old(nextEmployeeId)
        && employees == old(employees)[wallet := Employee(r.value, wallet, name, salaryUSD, paymentDay, true)]
        && employeeAddresses == old(employeeAddresses) + [wallet]
        && nextEmployeeId == old(nextEmployeeId) + 1
        && employeeIdToAddress == old(employeeIdToAddress)[r.value := wallet]
        && totalActiveEmployees == old(totalActiveEmployees) + 1
        && events == old(events) + [EmployeeAdded(r.value, wallet, name, salaryUSD)]
        && lastPaidPeriod == old(lastPaidPeriod) && priceFeedAnswer == old(priceFeedAnswer)
        && balance == old(balance) && paymentHistory == old(paymentHistory)
        && totalSalaryPaidUSD == old(totalSalaryPaidUSD)
    {
      if caller != owner {
        r := Err(OwnableUnauthorizedAccount(caller));
      } else if !ValidPaymentDay(paymentDay) {
        r := Err(InvalidPaymentDay);
      } else if wallet in employees {
        r := Err(EmployeeAlreadyExists);
      } else {
        var id := nextEmployeeId;
        var e := Employee(id, wallet, name, salaryUSD, paymentDay, true);
        ghost var employees0, addresses0, idToAddress0 := employees, employeeAddresses, employeeIdToAddress;
        employees := employees[wallet := e];
        employeeAddresses := employeeAddresses + [wallet];
        employeeIdToAddress := employeeIdToAddress[id := wallet];
        nextEmployeeId := nextEmployeeId + 1;
        totalActiveEmployees := totalActiveEmployees + 1;
        events := events + [EmployeeAdded(id, wallet, name, salaryUSD)];
        ValidAfterAdd(employees0, addresses0, idToAddress0, e);
        r := Ok(id);
      }
    }

    /** Overwriting an employee's details with a valid payment day leaves a valid state. */
    lemma ValidAfterUpdate(employees0: map<Address, Employee>, wallet: Address, name: string,
                           salaryUSD: nat, paymentDay: nat)
      requires RegistryInvariant(employees0, employeeAddresses, nextEmployeeId, employeeIdToAddress)
      requires wallet in employees0 && ValidPaymentDay(paymentDay)
      requires employees == employees0[wallet := employees0[wallet].(
                 name := name, salaryUSD := salaryUSD, salaryPaymentDay := paymentDay)]
      requires totalActiveEmployees == |employeeAddresses|
      requires lastPaidPeriod.Keys <= employees0.Keys && totalSalaryPaidUSD == TotalPaidUSD(paymentHistory)
      ensures Valid()
    {
      UpdateKeepsInvariant(employees0, employeeAddresses, nextEmployeeId, employeeIdToAddress,
                           wallet, name, salaryUSD, paymentDay);
    }

    /**
     * updateEmployeeDetails (owner only): overwrites name, salary and payment
     * day of an active employee; id, wallet and status are kept.
     */
    method UpdateEmployeeDetails(caller: Address, wallet: Address, name: string, salaryUSD: nat, paymentDay: nat)
      returns (r: Result<(), Error>)
      requires Valid()
      modifies this
      ensures Valid()
      ensures caller != owner ==> r == Err(OwnableUnauthorizedAccount(caller))
      ensures caller == owner && wallet !in old(employees) ==> r == Err(EmployeeNotFound)
      ensures caller == owner && wallet in old(employees) && !old(employees)[wallet].isActive ==>
                r == Err(EmployeeNotActive)
      ensures (caller == owner && wallet in old(employees) && old(employees)[wallet].isActive
               && !ValidPaymentDay(paymentDay)) ==> r == Err(InvalidPaymentDay)
      ensures r.Ok? <==> caller == owner && wallet in old(employees) && old(employees)[wallet].isActive
                         && ValidPaymentDay(paymentDay)
      ensures r.Err? ==> unchanged(this)
      ensures r.Ok? ==>
        && employees == old(employees)[wallet := old(employees)[wallet].(
             name := name, salaryUSD := salaryUSD, salaryPaymentDay := paymentDay)]
        && events == old(events) + [EmployeeUpdated(old(employees)[wallet].id, wallet)]
        && employeeAddresses == old(employeeAddresses) && nextEmployeeId == old(nextEmployeeId)
        && employeeIdToAddress == old(employeeIdToAddress)
        && totalActiveEmployees == old(totalActiveEmployees)
        && lastPaidPeriod == old(lastPaidPeriod) && priceFeedAnswer == old(priceFeedAnswer)
        && balance == old(balance) && paymentHistory == old(paymentHistory)
        && totalSalaryPaidUSD == old(totalSalaryPaidUSD)
    {
      if caller != owner {
        r := Err(OwnableUnauthorizedAccount(caller));
      } else if wallet !in employees {
        r := Err(EmployeeNotFound);
      } else if !employees[wallet].isActive {
        r := Err(EmployeeNotActive);
      } else if !ValidPaymentDay(paymentDay) {
        r := Err(InvalidPaymentDay);
      } else {
        var e := employees[wallet];
        ghost var employees0 := employees;
        employees := employees[wallet := e.(name := name, salaryUSD := salaryUSD, salaryPaymentDay := paymentDay)];
        events := events + [EmployeeUpdated(e.id, wallet)];
        ValidAfterUpdate(employees0, wallet, name, salaryUSD, paymentDay);
        r := Ok(());
      }
    }

    /** Deactivating the employee at slot i and swap-removing its wallet leaves a valid state. */
    lemma ValidAfterRemove(employees0: map<Address, Employee>, addresses0: seq<Address>, i: nat)
      requires RegistryInvariant(employees0, addresses0, nextEmployeeId, employeeIdToAddress)
      requires i < |addresses0| && addresses0[i] in employees0
      requires employees == employees0[addresses0[i] := employees0[addresses0[i]].(isActive := false)]
      requires employeeAddresses == SwapRemove(addresses0, i)
      requires totalActiveEmployees == |employeeAddresses|
      requires lastPaidPeriod.Keys <= employees0.Keys && totalSalaryPaidUSD == TotalPaidUSD(paymentHistory)
      ensures Valid()
    {
      RemoveKeepsInvariant(employees0, addresses0, nextEmployeeId, employeeIdToAddress, i);
    }

    /**
     * removeEmployee (owner only): marks an active employee inactive and drops
     * its wallet from the active addresses (the last address takes its slot).
     */
    method RemoveEmployee(caller: Address, wallet: Address) returns (r: Result<(), Error>)
      requires Valid()
      modifies this
      ensures Valid()
      ensures caller != owner ==> r == Err(OwnableUnauthorizedAccount(caller))
      ensures caller == owner && wallet !in old(employees) ==> r == Err(EmployeeNotFound)
      ensures caller == owner && wallet in old(employees) && !old(employees)[wallet].isActive ==>
                r == Err(EmployeeNotActive)
      ensures r.Ok? <==> caller == owner && wallet in old(employees) && old(employees)[wallet].isActive
      ensures r.Err? ==> unchanged(this)
      ensures r.Ok? ==>
        && employees == old(employees)[wallet := old(employees)[wallet].(isActive := false)]
        && |employeeAddresses| == |old(employeeAddresses)| - 1
        && (forall w :: w in employeeAddresses <==> w in old(employeeAddresses) && w != wallet)
        && totalActiveEmployees == old(totalActiveEmployees) - 1
        && events == old(events) + [EmployeeRemoved(old(employees)[wallet].id, wallet)]
        && nextEmployeeId == old(nextEmployeeId) && employeeIdToAddress == old(employeeIdToAddress)
        && lastPaidPeriod == old(lastPaidPeriod) && priceFeedAnswer == old(priceFeedAnswer)
        && balance == old(balance) && paymentHistory == old(paymentHistory)
        && totalSalaryPaidUSD == old(totalSalaryPaidUSD)
    {
      if caller != owner {
        r := Err(OwnableUnauthorizedAccount(caller));
      } else if wallet !in employees {
        r := Err(EmployeeNotFound);
      } else if !employees[wallet].isActive {
        r := Err(EmployeeNotActive);
      } else {
        var e := employees[wallet];
        var i := IndexOf(employeeAddresses, wallet);
        SwapRemoveMembers(employeeAddresses, i);
        ghost var employees0, addresses0 := employees, employeeAddresses;
        employees := employees[wallet := e.(isActive := false)];
        employeeAddresses := SwapRemove(employeeAddresses, i);
        totalActiveEmployees := totalActiveEmployees - 1;
        events := events + [EmployeeRemoved(e.id, wallet)];
        ValidAfterRemove(employees0, addresses0, i);
        r := Ok(());
      }
    }

    /** getEmployeeDetails: the record registered for a wallet, if any. */
    function GetEmployeeDetails(wallet: Address): (r: Option<Employee>)
      requires Valid()
      reads this
      ensures r.Some? <==> wallet in employees
      ensures r.Some? ==> r.value.walletAddress == wallet && ValidPaymentDay(r.value.salaryPaymentDay)
      ensures r.Some? ==> (r.value.isActive <==> wallet in employeeAddresses)
    {
      if wallet in employees then Some(employees[wallet]) else None
    }

    /** getEmployeeAddress: the wallet registered under an id, if any. */
    function GetEmployeeAddress(id: nat): (r: Option<Address>)
      requires Valid()
      reads this
      ensures r.Some? <==> 1 <= id < nextEmployeeId
      ensures r.Some? ==> r.value in employees && employees[r.value].id == id
    {
      if id in employeeIdToAddress then Some(employeeIdToAddress[id]) else None
    }

    /** getAllEmployeeAddresses: exactly the wallets of the active employees, each once. */
    function GetAllEmployeeAddresses(): (r: seq<Address>)
      requires Valid()
      reads this
      ensures NoDuplicates(r)
      ensures forall w :: w in r <==> w in employees && employees[w].isActive
    {
      employeeAddresses
    }

    /** getEmployeeCount: the length of the active-address list. */
    function GetEmployeeCount(): (n: nat)
      requires Valid()
      reads this
      ensures n == |GetAllEmployeeAddresses()|
      ensures n == GetTotalActiveEmployees()
    {
      |employeeAddresses|
    }

    /** getTotalActiveEmployees: the active-employee counter. */
    function GetTotalActiveEmployees(): (n: nat)
      requires Valid()
      reads this
      ensures n == |GetAllEmployeeAddresses()|
    {
      totalActiveEmployees
    }

    /** getAllActiveEmployees: the records of the active addresses, in list order. */
    method GetAllActiveEmployees() returns (r: seq<Employee>)
      requires Valid()
      ensures |r| == |employeeAddresses|
      ensures forall i :: 0 <= i < |r| ==> r[i] == employees[employeeAddresses[i]]
      ensures forall i :: 0 <= i < |r| ==>
                r[i].isActive && r[i].walletAddress == employeeAddresses[i]
                && ValidPaymentDay(r[i].salaryPaymentDay)
    {
      r := [];
      var i := 0;
      while i < |employeeAddresses|
        invariant 0 <= i <= |employeeAddresses|
        invariant |r| == i
        invariant forall k :: 0 <= k < i ==> r[k] == employees[employeeAddresses[k]]
      {
        r := r + [employees[employeeAddresses[i]]];
        i := i + 1;
      }
    }

    /**
     * getAllInactiveEmployees: the inactive records among the active addresses.
     * Removal takes a wallet out of that list, so the result is always empty.
     */
    method GetAllInactiveEmployees() returns (r: seq<Employee>)
      requires Valid()
      ensures forall e :: e in r ==> e in employees.Values && !e.isActive
      ensures r == []
    {
      r := [];
      var i := 0;
      while i < |employeeAddresses|
        invariant 0 <= i <= |employeeAddresses|
        invariant r == []
      {
        var e := employees[employeeAddresses[i]];
        if !e.isActive {
          r := r + [e];
        }
        i := i + 1;
      }
    }

    /** getLatestETHPrice: the feed answer at 18 decimals. */
    function GetLatestETHPrice(): (r: Result<nat, Error>)
      reads this
      ensures r.Ok? <==> priceFeedAnswer > 0
      ensures r.Err? ==> r.error == OracleUnavailable
      ensures r.Ok? ==> r.value * PriceConversion.FEED_UNIT == priceFeedAnswer * PriceConversion.WEI_PER_ETH
    {
      match PriceConversion.LatestETHPrice(priceFeedAnswer)
      case Some(p) => Ok(p)
      case None => Err(OracleUnavailable)
    }

    /** calculateETHAmount: usdAmount dollars in wei at the latest price, truncated. */
    function CalculateETHAmount(usdAmount: nat): (r: Result<nat, Error>)
      reads this
      ensures r.Ok? <==> GetLatestETHPrice().Ok?
      ensures r.Ok? ==> r.value == PriceConversion.ETHAmount(usdAmount, GetLatestETHPrice().value)
    {
      match GetLatestETHPrice()
      case Ok(price) => Ok(PriceConversion.ETHAmount(usdAmount, price))
      case Err(e) => Err(e)
    }

    /**
     * Whether performUpkeep would pay `wallet` on `day` of `period`: an active
     * employee whose payment day it is and who has not been paid this period.
     * In a valid registry such a wallet is on the active list and the day is
     * a payment day from 1 to 29.
     */
    predicate IsDue(wallet: Address, day: nat, period: Period)
      reads this
      ensures Valid() && IsDue(wallet, day, period) ==>
        wallet in employeeAddresses && ValidPaymentDay(day)
    {
      && wallet in employees
      && employees[wallet].isActive
      && employees[wallet].salaryPaymentDay == day
      && (wallet !in lastPaidPeriod || lastPaidPeriod[wallet] != period)
    }

    /** Recording a payment to a registered employee in the ledger leaves a valid state. */
    lemma ValidAfterPayment(lastPaid0: map<Address, Period>, history0: seq<PaymentRecord>, record: PaymentRecord)
      requires RegistryInvariant(employees, employeeAddresses, nextEmployeeId, employeeIdToAddress)
      requires totalActiveEmployees == |employeeAddresses|
      requires lastPaid0.Keys <= employees.Keys && record.walletAddress in employees
      requires lastPaidPeriod == lastPaid0[record.walletAddress := record.period]
      requires paymentHistory == history0 + [record]
      requires totalSalaryPaidUSD == TotalPaidUSD(history0) + record.amountUSD
      ensures Valid()
    {
      assert (history0 + [record])[..|history0|] == history0;
    }

    /**
     * performUpkeep: pays the salary of the employee named by `performData`
     * if it is due, converting salaryUSD at the latest price; otherwise reverts
     * with "Upkeep not needed". A successful payment marks the period as paid.
     */
    method PerformUpkeep(performData: Address, day: nat, period: Period) returns (r: Result<nat, Error>)
      requires Valid()
      modifies this
      ensures Valid()
      ensures !old(IsDue(performData, day, period)) ==> r == Err(UpkeepNotNeeded)
      ensures r.Ok? <==>
        && old(IsDue(performData, day, period))
        && old(CalculateETHAmount(employees[performData].salaryUSD)).Ok?
        && old(CalculateETHAmount(employees[performData].salaryUSD)).value <= old(balance)
      ensures r.Err? ==> unchanged(this)
      ensures r.Ok? ==>
        && old(IsDue(performData, day, period))
        && !IsDue(performData, day, period)
        && old(CalculateETHAmount(employees[performData].salaryUSD)) == Ok(r.value)
        && r.value <= old(balance)
        && balance == old(balance) - r.value
        && lastPaidPeriod == old(lastPaidPeriod)[performData := period]
        && paymentHistory == old(paymentHistory) + [PaymentRecord(
             employees[performData].id, performData, employees[performData].salaryUSD, r.value, period)]
        && totalSalaryPaidUSD == old(totalSalaryPaidUSD) + employees[performData].salaryUSD
        && events == old(events) + [SalaryPaid(
             employees[performData].id, performData, employees[performData].salaryUSD, r.value)]
        && employees == old(employees) && employeeAddresses == old(employeeAddresses)
        && nextEmployeeId == old(nextEmployeeId) && employeeIdToAddress == old(employeeIdToAddress)
        && totalActiveEmployees == old(totalActiveEmployees) && priceFeedAnswer == old(priceFeedAnswer)
      ensures old(IsDue(performData, day, period)) && old(CalculateETHAmount(employees[performData].salaryUSD)).Err? ==>
                r == Err(OracleUnavailable)
      ensures old(IsDue(performData, day, period)) && old(CalculateETHAmount(employees[performData].salaryUSD)).Ok?
                && old(balance) < old(CalculateETHAmount(employees[performData].salaryUSD)).value ==>
                r == Err(InsufficientFunds)
    {
      if !IsDue(performData, day, period) {
        r := Err(UpkeepNotNeeded);
      } else {
        var e := employees[performData];
        var amount := CalculateETHAmount(e.salaryUSD);
        if amount.Err? {
          r := Err(amount.error);
        } else if balance < amount.value {
          r := Err(InsufficientFunds);
        } else {
          var wei := amount.value;
          var record := PaymentRecord(e.id, performData, e.salaryUSD, wei, period);
          ghost var lastPaid0, history0 := lastPaidPeriod, paymentHistory;
          balance := balance - wei;
          lastPaidPeriod := lastPaidPeriod[performData := period];
          paymentHistory := paymentHistory + [record];
          totalSalaryPaidUSD := totalSalaryPaidUSD + e.salaryUSD;
          events := events + [SalaryPaid(e.id, performData, e.salaryUSD, wei)];
          ValidAfterPayment(lastPaid0, history0, record);
          r := Ok(wei);
        }
      }
    }

    /** receive: ETH sent to the contract is added to its balance. */
    method Receive(amount: nat)
      modifies this`balance
      ensures balance == old(balance) + amount
    {
      balance := balance + amount;
    }

    /** The price feed reports a new answer (the feed is outside the contract). */
    method UpdateFeedAnswer(answer: int)
      modifies this`priceFeedAnswer
      ensures priceFeedAnswer == answer
    {
      priceFeedAnswer := answer;
    }
  }
}
