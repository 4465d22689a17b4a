/*
 * The behaviour the contract's test suite asserts, replayed against the
 * model: each method deploys a fresh contract as the suite's `beforeEach`
 * does (price feed at $2000 with 8 decimals, 10 ETH deposited), performs the
 * calls of one test and returns what the test inspects. Where a test stops
 * short of an assertion (the payment-history test cannot reach the internal
 * payout), the method exercises the model's reconstruction of that path.
 */
module DefisalaryTests {

  import opened Results
  import opened DefisalaryContract
  import PriceConversion

  /** $2000 per ETH with 8 decimals. */
  const ETH_USD_PRICE: int := 2000 * PriceConversion.FEED_UNIT
  const ONE_ETH: nat := PriceConversion.WEI_PER_ETH

  const EMPLOYEE1_NAME: string := "John Doe"
  const EMPLOYEE1_SALARY: nat := 5000
  const EMPLOYEE1_PAYMENT_DAY: nat := 15
  const EMPLOYEE2_NAME: string := "Jane Smith"
  const EMPLOYEE2_SALARY: nat := 6000
  const EMPLOYEE2_PAYMENT_DAY: nat := 20

  /** Deploy with the $2000 feed and fund the contract with 10 ETH. */
  method Deploy(owner: Address) returns (c: Defisalary)
    ensures fresh(c) && c.Valid()
    ensures c.owner == owner && c.priceFeedAnswer == ETH_USD_PRICE && c.balance == 10 * ONE_ETH
    ensures c.employees == map[] && c.employeeAddresses == [] && c.nextEmployeeId == 1
    ensures c.lastPaidPeriod == map[] && c.events == [] && c.paymentHistory == []
    ensures c.totalSalaryPaidUSD == 0
  {
    c := new Defisalary(owner, ETH_USD_PRICE);
    c.Receive(10 * ONE_ETH);
  }

  method ShouldSetTheRightOwner(owner: Address) returns (contractOwner: Address)
    ensures contractOwner == owner
  {
    var c := Deploy(owner);
    contractOwner := c.owner;
  }

  /** A registered employee reads back exactly as added, under id 1, and is counted. */
  method ShouldAddAnEmployeeCorrectly(owner: Address, employee1: Address)
    returns (added: Result<nat, Error>, details: Option<Employee>, employeeCount: nat,
             totalActive: nat, emitted: seq<Event>)
    ensures added == Ok(1)
    ensures details == Some(Employee(1, employee1, EMPLOYEE1_NAME, EMPLOYEE1_SALARY, EMPLOYEE1_PAYMENT_DAY, true))
    ensures employeeCount == 1 && totalActive == 1
    ensures emitted == [EmployeeAdded(1, employee1, EMPLOYEE1_NAME, EMPLOYEE1_SALARY)]
  {
    var c := Deploy(owner);
    added := c.AddEmployee(owner, employee1, EMPLOYEE1_NAME, EMPLOYEE1_SALARY, EMPLOYEE1_PAYMENT_DAY);
    details := c.GetEmployeeDetails(employee1);
    employeeCount := c.GetEmployeeCount();
    totalActive := c.GetTotalActiveEmployees();
    emitted := c.events;
  }

  /** Payment days 0 and 30 are rejected and register nothing. */
  method ShouldRejectInvalidPaymentDay(owner: Address, employee1: Address)
    returns (day0: Result<nat, Error>, day30: Result<nat, Error>, countAfterRejects: nat)
    ensures day0 == Err(InvalidPaymentDay) && day30 == Err(InvalidPaymentDay)
    ensures countAfterRejects == 0
  {
    var c := Deploy(owner);
    day0 := c.AddEmployee(owner, employee1, EMPLOYEE1_NAME, EMPLOYEE1_SALARY, 0);
    day30 := c.AddEmployee(owner, employee1, EMPLOYEE1_NAME, EMPLOYEE1_SALARY, 30);
    countAfterRejects := c.GetEmployeeCount();
  }

  method ShouldRejectDuplicateEmployee(owner: Address, employee1: Address)
    returns (second: Result<nat, Error>, details: Option<Employee>)
    ensures second == Err(EmployeeAlreadyExists)
    ensures details == Some(Employee(1, employee1, EMPLOYEE1_NAME, EMPLOYEE1_SALARY, EMPLOYEE1_PAYMENT_DAY, true))
  {
    var c := Deploy(owner);
    var first := c.AddEmployee(owner, employee1, EMPLOYEE1_NAME, EMPLOYEE1_SALARY, EMPLOYEE1_PAYMENT_DAY);
    second := c.AddEmployee(owner, employee1, "Another Name", 4000, 10);
    details := c.GetEmployeeDetails(employee1);
  }

  /** Add, update and remove by another account revert with OwnableUnauthorizedAccount. */
  method ShouldRejectIfNotCalledByOwner(owner: Address, employee1: Address, nonOwner: Address)
    returns (add: Result<nat, Error>, update: Result<(), Error>, remove: Result<(), Error>,
             details: Option<Employee>)
    requires nonOwner != owner
    ensures add == Err(OwnableUnauthorizedAccount(nonOwner))
    ensures update == Err(OwnableUnauthorizedAccount(nonOwner))
    ensures remove == Err(OwnableUnauthorizedAccount(nonOwner))
    ensures details == Some(Employee(1, employee1, EMPLOYEE1_NAME, EMPLOYEE1_SALARY, EMPLOYEE1_PAYMENT_DAY, true))
  {
    var c := Deploy(owner);
    add := c.AddEmployee(nonOwner, employee1, EMPLOYEE1_NAME, EMPLOYEE1_SALARY, EMPLOYEE1_PAYMENT_DAY);
    var _ := c.AddEmployee(owner, employee1, EMPLOYEE1_NAME, EMPLOYEE1_SALARY, EMPLOYEE1_PAYMENT_DAY);
    update := c.UpdateEmployeeDetails(nonOwner, employee1, "New Name", 6000, 15);
    remove := c.RemoveEmployee(nonOwner, employee1);
    details := c.GetEmployeeDetails(employee1);
  }

  /** Name, salary and payment day are overwritten; id, wallet and status stay. */
  method ShouldUpdateEmployeeDetailsCorrectly(owner: Address, employee1: Address)
    returns (updated: Result<(), Error>, details: Option<Employee>, lastEvent: Event)
    ensures updated.Ok?
    ensures details == Some(Employee(1, employee1, "Updated Name", 7000, 10, true))
    ensures lastEvent == EmployeeUpdated(1, employee1)
  {
    var c := Deploy(owner);
    var _ := c.AddEmployee(owner, employee1, EMPLOYEE1_NAME, EMPLOYEE1_SALARY, EMPLOYEE1_PAYMENT_DAY);
    updated := c.UpdateEmployeeDetails(owner, employee1, "Updated Name", 7000, 10);
    details := c.GetEmployeeDetails(employee1);
    lastEvent := c.events[|c.events| - 1];
  }

  /** An invalid day is rejected on update, and so is any update of a removed employee. */
  method ShouldRejectInvalidUpdates(owner: Address, employee1: Address)
    returns (invalidDay: Result<(), Error>, afterRemoval: Result<(), Error>)
    ensures invalidDay == Err(InvalidPaymentDay)
    ensures afterRemoval == Err(EmployeeNotActive)
  {
    var c := Deploy(owner);
    var _ := c.AddEmployee(owner, employee1, EMPLOYEE1_NAME, EMPLOYEE1_SALARY, EMPLOYEE1_PAYMENT_DAY);
    invalidDay := c.UpdateEmployeeDetails(owner, employee1, "New Name", 6000, 0);
    var _ := c.RemoveEmployee(owner, employee1);
    afterRemoval := c.UpdateEmployeeDetails(owner, employee1, "New Name", 6000, 15);
  }

  /**
   * Removal marks the employee inactive, takes it off the address list and the
   * active count, emits EmployeeRemoved, and cannot be repeated.
   */
  method ShouldRemoveEmployee(owner: Address, employee1: Address)
    returns (activeBefore: nat, removed: Result<(), Error>, isActive: bool, activeAfter: nat,
             addresses: seq<Address>, lastEvent: Event, removedAgain: Result<(), Error>)
    ensures activeBefore == 1 && removed.Ok?
    ensures !isActive && activeAfter == 0 && addresses == []
    ensures lastEvent == EmployeeRemoved(1, employee1)
    ensures removedAgain == Err(EmployeeNotActive)
  {
    var c := Deploy(owner);
    var _ := c.AddEmployee(owner, employee1, EMPLOYEE1_NAME, EMPLOYEE1_SALARY, EMPLOYEE1_PAYMENT_DAY);
    activeBefore := c.GetTotalActiveEmployees();
    removed := c.RemoveEmployee(owner, employee1);
    isActive := c.GetEmployeeDetails(employee1).value.isActive;
    activeAfter := c.GetTotalActiveEmployees();
    addresses := c.GetAllEmployeeAddresses();
    lastEvent := c.events[|c.events| - 1];
    removedAgain := c.RemoveEmployee(owner, employee1);
  }

  /** Two employees added in turn receive ids 1 and 2 and are both listed as active. */
  method DeployTwo(owner: Address, employee1: Address, employee2: Address) returns (c: Defisalary)
    requires employee1 != employee2
    ensures fresh(c) && c.Valid() && c.owner == owner
    ensures employee1 in c.employees && c.employees[employee1].isActive
    ensures employee2 in c.employees
              && c.employees[employee2] == Employee(2, employee2, EMPLOYEE2_NAME, EMPLOYEE2_SALARY, EMPLOYEE2_PAYMENT_DAY, true)
    ensures c.employeeAddresses == [employee1, employee2]
    ensures c.employeeIdToAddress == map[1 := employee1, 2 := employee2]
  {
    c := Deploy(owner);
    var _ := c.AddEmployee(owner, employee1, EMPLOYEE1_NAME, EMPLOYEE1_SALARY, EMPLOYEE1_PAYMENT_DAY);
    var _ := c.AddEmployee(owner, employee2, EMPLOYEE2_NAME, EMPLOYEE2_SALARY, EMPLOYEE2_PAYMENT_DAY);
  }

  /** The getter tests' setup: two employees added, then the first removed. */
  method DeployTwoRemoveFirst(owner: Address, employee1: Address, employee2: Address) returns (c: Defisalary)
    requires employee1 != employee2
    ensures fresh(c) && c.Valid()
    ensures employee2 in c.employees
              && c.employees[employee2] == Employee(2, employee2, EMPLOYEE2_NAME, EMPLOYEE2_SALARY, EMPLOYEE2_PAYMENT_DAY, true)
    ensures c.employeeAddresses == [employee2]
    ensures c.employeeIdToAddress == map[1 := employee1, 2 := employee2]
  {
    c := DeployTwo(owner, employee1, employee2);
    var _ := c.RemoveEmployee(owner, employee1);
    assert employee2 in c.employeeAddresses && |c.employeeAddresses| == 1;
    assert c.employeeAddresses == [employee2];
  }

  /**
   * Two employees added, the first removed: only the second is listed as
   * active, the inactive listing is empty, the employee count is 1, and ids
   * 1 and 2 still resolve to the two wallets.
   */
  method GetterFunctions(owner: Address, employee1: Address, employee2: Address)
    returns (active: seq<Employee>, inactive: seq<Employee>, employeeCount: nat, totalActive: nat,
             address1: Option<Address>, address2: Option<Address>)
    requires employee1 != employee2
    ensures active == [Employee(2, employee2, EMPLOYEE2_NAME, EMPLOYEE2_SALARY, EMPLOYEE2_PAYMENT_DAY, true)]
    ensures inactive == []
    ensures employeeCount == 1 && totalActive == 1
    ensures address1 == Some(employee1) && address2 == Some(employee2)
  {
    var c := DeployTwoRemoveFirst(owner, employee1, employee2);
    active := c.GetAllActiveEmployees();
    inactive := c.GetAllInactiveEmployees();
    employeeCount := c.GetEmployeeCount();
    totalActive := c.GetTotalActiveEmployees();
    address1 := c.GetEmployeeAddress(1);
    address2 := c.GetEmployeeAddress(2);
  }

  /** The price reads as 2000 * 10^18; $1000 is 0.5 ETH, and 0.25 ETH once the feed reports $4000. */
  method USDToETHConversion(owner: Address)
    returns (price: Result<nat, Error>, at2000: Result<nat, Error>, at4000: Result<nat, Error>)
    ensures price == Ok(2000 * ONE_ETH)
    ensures at2000 == Ok(ONE_ETH / 2)
    ensures at4000 == Ok(ONE_ETH / 4)
  {
    var c := Deploy(owner);
    price := c.GetLatestETHPrice();
    PriceConversion.ConversionAt2000();
    at2000 := c.CalculateETHAmount(1000);
    c.UpdateFeedAnswer(4000 * PriceConversion.FEED_UNIT);
    PriceConversion.ConversionAt4000();
    at4000 := c.CalculateETHAmount(1000);
  }

  /** performUpkeep for an employee whose payment day it is not reverts and pays nothing. */
  method PerformUpkeepShouldFailIfNotNeeded(owner: Address, employee1: Address, employee2: Address,
                                            day: nat, period: Period)
    returns (r: Result<nat, Error>, balance: nat, payments: nat)
    requires employee1 != employee2 && day != EMPLOYEE1_PAYMENT_DAY
    ensures r == Err(UpkeepNotNeeded)
    ensures balance == 10 * ONE_ETH && payments == 0
  {
    var c := Deploy(owner);
    var _ := c.AddEmployee(owner, employee1, EMPLOYEE1_NAME, EMPLOYEE1_SALARY, EMPLOYEE1_PAYMENT_DAY);
    var _ := c.AddEmployee(owner, employee2, EMPLOYEE2_NAME, EMPLOYEE2_SALARY, EMPLOYEE2_PAYMENT_DAY);
    r := c.PerformUpkeep(employee1, day, period);
    balance := c.balance;
    payments := |c.paymentHistory|;
  }

  /**
   * The payment-history test computes the expected amount but cannot trigger
   * the internal payout. Through the reconstructed success branch: on the
   * payment day the first upkeep pays $5000 as 2.5 ETH; a second upkeep in
   * the same period reverts, so a salary is paid at most once per period.
   */
  method PerformUpkeepPaysOncePerPeriod(owner: Address, employee1: Address, period: Period)
    returns (first: Result<nat, Error>, second: Result<nat, Error>, balance: nat, totalPaidUSD: nat)
    ensures first == Ok(5 * ONE_ETH / 2)
    ensures second == Err(UpkeepNotNeeded)
    ensures balance == 10 * ONE_ETH - 5 * ONE_ETH / 2 && totalPaidUSD == EMPLOYEE1_SALARY
  {
    var c := Deploy(owner);
    var _ := c.AddEmployee(owner, employee1, EMPLOYEE1_NAME, EMPLOYEE1_SALARY, EMPLOYEE1_PAYMENT_DAY);
    PriceConversion.ETHAmountUnique(EMPLOYEE1_SALARY, 2000 * ONE_ETH, 5 * ONE_ETH / 2);
    assert c.GetLatestETHPrice() == Ok(2000 * ONE_ETH);
    assert c.CalculateETHAmount(EMPLOYEE1_SALARY) == Ok(5 * ONE_ETH / 2);
    assert c.IsDue(employee1, EMPLOYEE1_PAYMENT_DAY, period);
    first := c.PerformUpkeep(employee1, EMPLOYEE1_PAYMENT_DAY, period);
    second := c.PerformUpkeep(employee1, EMPLOYEE1_PAYMENT_DAY, period);
    balance := c.balance;
    totalPaidUSD := c.totalSalaryPaidUSD;
  }

  /** Sending 1 ETH raises the balance by exactly 1 ETH. */
  method ShouldHandleReceivingETH(owner: Address) returns (initialBalance: nat, newBalance: nat)
    ensures newBalance - initialBalance == ONE_ETH
  {
    var c := Deploy(owner);
    initialBalance := c.balance;
    c.Receive(ONE_ETH);
    newBalance := c.balance;
  }
}
