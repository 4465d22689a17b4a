# Defisalary payroll, modelled in Dafny

Defisalary is a payroll contract. Its owner registers employees, each with a
wallet, a name, a monthly salary in whole US dollars and a payment day from
1 to 29. On an employee's payment day a keeper calls `performUpkeep`, which
converts the salary to ETH at the price-feed rate and pays it from the
contract's balance. An admin dashboard shows the upcoming payments.

This project models two parts of the system:

- **The contract** (`defisalary.dfy`, module `DefisalaryContract`). The
  contract's Solidity source is not part of this model. Its behaviour is
  taken from the assertions of its test suite, `backend/test/Defisalary.js`.
  The class `Defisalary` holds:
  - the owner;
  - the employee records by wallet;
  - the list of active wallets;
  - the id counter and the id-to-wallet map;
  - the active counter;
  - the last paid period of each employee;
  - the price-feed answer;
  - the ETH balance;
  - the payment ledger;
  - the event log.

  A revert becomes an `Err` result that leaves every field unchanged. The
  invariant `Valid()` (`RegistryInvariant` over the registry fields) says that:
  - ids run densely from 1 and map one to one onto wallets;
  - every stored payment day is between 1 and 29;
  - the active list holds each active wallet exactly once.

  The fixed-point price arithmetic is in `price_conversion.dfy` (module
  `PriceConversion`). `defisalary_tests.dfy` (module `DefisalaryTests`) replays
  the test suite's cases against the class. Each method's `ensures` states
  what its test asserts; where a test asserts nothing, as with the payment
  history test, the method's `ensures` come from the model's reconstruction,
  and "## Left out" says so.
- **The payroll schedule view** (`payroll_schedule.dfy`, module
  `PayrollSchedule`, over dates from `calendar.dfy`, module `Calendar`).
  It models the `fetchEmployees` mapping: the next payment date, the days
  until it, the monthly total and the sort by date. It also models
  `groupPaymentsByWeek`. A date is a (year, month, day) triple.
  `Calendar.JsDate` reproduces how JavaScript's `new Date(y, m, d)` rolls an
  out-of-range month or day into the following month. `Calendar.DayNumber`
  numbers days consecutively; it stands for `getTime()` at whole-day
  resolution.

Observed behaviour, modelled as the tests assert it:

- `getEmployeeCount()` returns 1 after two adds and one removal
  (`backend/test/Defisalary.js:451-454`), although the comment next to it says
  the removed employee "still counts". The model therefore returns the length
  of the active-address list, which always equals the active count.
- `getAllInactiveEmployees()` returns nothing after a removal
  (`backend/test/Defisalary.js:434-449`). The test file itself flags this as a
  probable defect. The model scans the active-address list for inactive
  records. Removal takes a wallet off that list, so the result is always
  empty, and `GetAllInactiveEmployees` proves exactly that. A design that
  lists removed employees as inactive, or counts every registration, would
  contradict these two assertions.
- The contract accepts payment days up to 29. Non-leap Februaries have no
  29th, so the dashboard shows a day-29 payment due then as due on March 1
  (`PayrollSchedule.FebruaryRollsOver`, `PayrollSchedule.NextPaymentMonth`).

## Model

| member | source | states |
|---|---|---|
| `PriceConversion.LatestETHPrice` | backend/test/Defisalary.js:291-296 | the reported price is the 8-decimal feed answer at 18 decimals: the same dollar amount (`price * 10^8 == answer * 10^18`); a non-positive answer gives no price |
| `PriceConversion.ETHAmount` | backend/test/Defisalary.js:298-310 | the wei amount is `usd * 10^36 / price18` truncated, stated as the largest wei amount worth at most `usd` dollars |
| `PriceConversion.ETHAmountUnique` | backend/test/Defisalary.js:298-310 | the two bounds of `ETHAmount` determine the result uniquely |
| `PriceConversion.HigherPriceFewerWei` | backend/test/Defisalary.js:515-527 | a higher ETH price never yields more wei for the same salary |
| `PriceConversion.LargerSalaryMoreWei` | backend/test/Defisalary.js:298-310 | a larger salary never yields fewer wei at the same price |
| `PriceConversion.ConversionAt2000` | backend/test/Defisalary.js:298-310 | feed answer 2000·10^8 reads as 2000·10^18, and $1000 converts to exactly 0.5·10^18 wei |
| `PriceConversion.ConversionAt4000` | backend/test/Defisalary.js:515-527 | feed answer 4000·10^8 reads as 4000·10^18, and $1000 converts to exactly 0.25·10^18 wei |
| `DefisalaryContract.Defisalary.constructor` | backend/test/Defisalary.js:24-48 | the deployer becomes the owner; the registry, ledger and balance start empty |
| `DefisalaryContract.Defisalary.AddEmployee` | backend/test/Defisalary.js:52-144 | non-owner → OwnableUnauthorizedAccount, day outside 1..29 → "Invalid payment day", registered wallet → "Employee already exists", each leaving the state unchanged; otherwise the record is stored as given with isActive = true under the next sequential id, the wallet is appended to the active list, both counts grow by 1, and EmployeeAdded(id, wallet, name, salary) is emitted |
| `DefisalaryContract.Defisalary.UpdateEmployeeDetails` | backend/test/Defisalary.js:147-228 | non-owner, unknown wallet, inactive employee ("Employee not active") and invalid day revert with no change; otherwise only name, salary and payment day change, and EmployeeUpdated(id, wallet) is emitted |
| `DefisalaryContract.Defisalary.RemoveEmployee` | backend/test/Defisalary.js:231-286 | non-owner, unknown wallet and already-removed employee ("Employee not active") revert with no change; otherwise the record becomes inactive, the wallet leaves the active list (one shorter, all other wallets kept), the active count drops by 1, and EmployeeRemoved(id, wallet) is emitted |
| `DefisalaryContract.SwapRemoveMembers` | backend/test/Defisalary.js:258-263 | moving the last address into the removed slot and shrinking the list drops exactly that address and keeps the rest distinct |
| `DefisalaryContract.AddKeepsInvariant` | backend/test/Defisalary.js:53-95 | registering a new wallet under the next id keeps ids dense and one to one and keeps the active list duplicate-free |
| `DefisalaryContract.UpdateKeepsInvariant` | backend/test/Defisalary.js:157-176 | overwriting name, salary and a valid payment day keeps the registry invariant |
| `DefisalaryContract.RemoveKeepsInvariant` | backend/test/Defisalary.js:241-263 | deactivating a record and swap-removing its wallet keeps the registry invariant |
| `DefisalaryContract.Defisalary.GetEmployeeDetails` | backend/test/Defisalary.js:61-69 | a wallet has a record iff it was registered; the record carries that wallet and a valid payment day, and it is active iff the wallet is in the active list |
| `DefisalaryContract.Defisalary.GetEmployeeAddress` | backend/test/Defisalary.js:460-470 | id resolves iff 1 <= id < next id, to the wallet whose record has that id |
| `DefisalaryContract.Defisalary.GetAllEmployeeAddresses` | backend/test/Defisalary.js:258-263 | exactly the active employees' wallets, each once |
| `DefisalaryContract.Defisalary.GetEmployeeCount` | backend/test/Defisalary.js:451-454 | equals the length of the active-address list and the active count |
| `DefisalaryContract.Defisalary.GetTotalActiveEmployees` | backend/test/Defisalary.js:456-458 | equals the number of active wallets |
| `DefisalaryContract.Defisalary.GetAllActiveEmployees` | backend/test/Defisalary.js:425-432 | the records of the active list, in its order, all active, each carrying its wallet |
| `DefisalaryContract.Defisalary.GetAllInactiveEmployees` | backend/test/Defisalary.js:434-449 | only inactive registered records could appear, and the result is always empty |
| `DefisalaryContract.Defisalary.GetLatestETHPrice` | backend/test/Defisalary.js:291-296 | the feed answer at 18 decimals, or OracleUnavailable when the answer is not positive |
| `DefisalaryContract.Defisalary.CalculateETHAmount` | backend/test/Defisalary.js:298-310 | fails exactly when the price is unavailable; otherwise converts at the price `GetLatestETHPrice` reports, with `ETHAmount`'s truncation |
| `DefisalaryContract.Defisalary.PerformUpkeep` | backend/test/Defisalary.js:361-375 | an employee who is not due (inactive, unknown, other payment day, or already paid this period) → "Upkeep not needed" with no change; a payment succeeds iff the employee is due, the price is available and the balance covers it; it debits exactly the converted amount, records the period so the employee is no longer due, and appends one ledger entry |
| `DefisalaryContract.Defisalary.IsDue` | backend/test/Defisalary.js:361-375 | the condition whose failure gives "Upkeep not needed": the wallet is registered and active, today is its payment day, and it has not been paid this period; in a valid registry a due wallet is on the active list and the day is between 1 and 29 |
| `DefisalaryContract.Defisalary.Receive` | backend/test/Defisalary.js:494-510 | the balance grows by exactly the amount sent |
| `DefisalaryContract.Defisalary.UpdateFeedAnswer` | backend/test/Defisalary.js:520-522 | the feed reports the new answer |
| `DefisalaryTests.Deploy` | backend/test/Defisalary.js:24-43 | a fresh contract owned by the deployer, feed at $2000, balance 10 ETH, empty registry |
| `DefisalaryTests.ShouldSetTheRightOwner` | backend/test/Defisalary.js:45-48 | the owner is the deployer |
| `DefisalaryTests.ShouldAddAnEmployeeCorrectly` | backend/test/Defisalary.js:53-95 | the first add returns id 1, reads back exactly as given and active, both counts are 1, one EmployeeAdded(1, …) event |
| `DefisalaryTests.ShouldRejectInvalidPaymentDay` | backend/test/Defisalary.js:97-115 | days 0 and 30 revert with "Invalid payment day" and register nothing |
| `DefisalaryTests.ShouldRejectDuplicateEmployee` | backend/test/Defisalary.js:117-128 | a second add of the same wallet reverts with "Employee already exists" and leaves the first record |
| `DefisalaryTests.ShouldRejectIfNotCalledByOwner` | backend/test/Defisalary.js:130-144 | add by another account reverts with OwnableUnauthorizedAccount, and so do update and remove (the same check at lines 219-228 and 279-286) |
| `DefisalaryTests.ShouldUpdateEmployeeDetailsCorrectly` | backend/test/Defisalary.js:157-193 | the record reads back with the new name, salary and day, same id and wallet; EmployeeUpdated(1, wallet) |
| `DefisalaryTests.ShouldRejectInvalidUpdates` | backend/test/Defisalary.js:195-217 | update with day 0 reverts with "Invalid payment day"; update after removal reverts with "Employee not active" |
| `DefisalaryTests.ShouldRemoveEmployee` | backend/test/Defisalary.js:241-277 | removal makes the record inactive, the active count 1 → 0, the address list empty, emits EmployeeRemoved(1, wallet); a second removal reverts with "Employee not active" |
| `DefisalaryTests.DeployTwoRemoveFirst` | backend/test/Defisalary.js:405-423 | after adding two employees and removing the first, only the second is listed as active, and ids 1 and 2 still map to the two wallets |
| `DefisalaryTests.GetterFunctions` | backend/test/Defisalary.js:404-470 | after two adds and one removal: the active list is exactly the second employee's record, the inactive list is empty, the employee count and active count are 1, ids 1 and 2 resolve to the two wallets |
| `DefisalaryTests.USDToETHConversion` | backend/test/Defisalary.js:290-310 | price 2000·10^18; $1000 → 0.5 ETH, and 0.25 ETH after the feed moves to $4000 |
| `DefisalaryTests.PerformUpkeepShouldFailIfNotNeeded` | backend/test/Defisalary.js:364-374 | on a day other than the employee's payment day, performUpkeep reverts with "Upkeep not needed", pays nothing and records nothing |
| `DefisalaryTests.PerformUpkeepPaysOncePerPeriod` | backend/test/Defisalary.js:381-388 | the test computes only `calculateETHAmount(EMPLOYEE1_SALARY)` and asserts nothing; the member drives the reconstructed success branch of `PerformUpkeep` with that amount: on the payment day $5000 is paid as the calculated 2.5 ETH from the balance, and a second upkeep in the same period reverts with "Upkeep not needed" |
| `DefisalaryTests.ShouldHandleReceivingETH` | backend/test/Defisalary.js:494-510 | sending 1 ETH raises the balance by exactly 1 ETH |
| `Calendar.JsDate` | frontend/src/app/components/admin/PayrollScheduleComponent.jsx:35-42 | `new Date(y, m, d)` denotes day d − 1 after the first of month m (month 13 being January of the next year): the plain date when the day exists, otherwise the corresponding day of the following month |
| `Calendar.MonthAfter` | frontend/src/app/components/admin/PayrollScheduleComponent.jsx:38-42 | the month after December is January of the next year; every other month is followed by the next one in the same year |
| `Calendar.DayNumberMonotone` | frontend/src/app/components/admin/PayrollScheduleComponent.jsx:60-63 | a later calendar date has a larger day number, so ordering by day number is ordering by date |
| `PayrollSchedule.NextPaymentDate` | frontend/src/app/components/admin/PayrollScheduleComponent.jsx:31-43 | never before today; this month on the payment day when it is not yet past, otherwise next month, December rolling into January of the next year |
| `PayrollSchedule.DaysUntilNextPayment` | frontend/src/app/components/admin/PayrollScheduleComponent.jsx:45-48 | days until payment is `paymentDay − today` when not past, else the rest of this month plus `paymentDay`; so 0 <= days <= length of this month, and 0 exactly on the payment day |
| `PayrollSchedule.DaysUntil` | frontend/src/app/components/admin/PayrollScheduleComponent.jsx:45-48 | the whole-day difference between the payment date and today, standing for the rounded-up millisecond difference |
| `PayrollSchedule.DaysUntilSign` | frontend/src/app/components/admin/PayrollScheduleComponent.jsx:45-48 | days-until is 0 exactly when the date is today, and positive exactly when the date comes after today in (year, month, day) order |
| `Calendar.OrdinalInjective` | frontend/src/app/components/admin/PayrollScheduleComponent.jsx:61-63 | two calendar dates at the same (year, month, day) position are the same date, so sorting by that position never conflates distinct dates |
| `PayrollSchedule.NextPaymentMonth` | frontend/src/app/components/admin/PayrollScheduleComponent.jsx:31-43 | the next payment date lies in today's month or the next, except a day-29 payment in a non-leap February, which lands on March 1 |
| `PayrollSchedule.FebruaryRollsOver` | frontend/src/app/components/admin/PayrollScheduleComponent.jsx:36-42 | on 30 January 2025 the next day-29 payment shows as 1 March 2025, 30 days ahead |
| `PayrollSchedule.ScheduleEntry` | frontend/src/app/components/admin/PayrollScheduleComponent.jsx:26-57 | a row carries the employee's id, name, wallet and salary and a non-negative days-until |
| `PayrollSchedule.ScheduleEntries` | frontend/src/app/components/admin/PayrollScheduleComponent.jsx:26-58 | one row per active employee, in the same order |
| `PayrollSchedule.TotalSalary` | frontend/src/app/components/admin/PayrollScheduleComponent.jsx:24-29 | the `monthlyPayrollTotal +=` sum of the salaries of the listed employees; it is at least every single salary in the list |
| `PayrollSchedule.InsertByDate` | frontend/src/app/components/admin/PayrollScheduleComponent.jsx:60-63 | inserting into a date-sorted list keeps it sorted and one row longer, with the new row or the old head in front |
| `PayrollSchedule.InsertByDatePermutes` | frontend/src/app/components/admin/PayrollScheduleComponent.jsx:60-63 | insertion adds exactly the inserted row and loses none |
| `PayrollSchedule.SortByDate` | frontend/src/app/components/admin/PayrollScheduleComponent.jsx:60-63 | the result is sorted by payment date and is a permutation of the input |
| `PayrollSchedule.SortedByTime` | frontend/src/app/components/admin/PayrollScheduleComponent.jsx:61-63 | a list sorted by calendar position is sorted by `getTime()`: the day numbers of its payment dates ascend |
| `Calendar.OrdinalOrdersLikeDayNumber` | frontend/src/app/components/admin/PayrollScheduleComponent.jsx:61-63 | comparing dates by (year, month, day) position agrees with comparing their day numbers, in both directions |
| `PayrollSchedule.FetchEmployees` | frontend/src/app/components/admin/PayrollScheduleComponent.jsx:16-66 | the monthly total is the sum of salaryUSD over the active employees; the rows are exactly one per active employee, sorted ascending by payment date, all with days-until >= 0 |
| `PayrollSchedule.Filter` | frontend/src/app/components/admin/PayrollScheduleComponent.jsx:100-112 | a bucket never holds more rows than the list |
| `PayrollSchedule.FilterMembers` | frontend/src/app/components/admin/PayrollScheduleComponent.jsx:100-112 | a bucket holds exactly the rows of the list whose days-until and month select it |
| `PayrollSchedule.GroupPaymentsByWeek` | frontend/src/app/components/admin/PayrollScheduleComponent.jsx:90-115 | each bucket is the list's rows of that group, in list order |
| `PayrollSchedule.GroupsPartition` | frontend/src/app/components/admin/PayrollScheduleComponent.jsx:100-112 | every row lands in exactly one bucket: the four buckets together are a rearrangement of the list, and their sizes add up to its length |
| `PayrollSchedule.GroupKeepsOrder` | frontend/src/app/components/admin/PayrollScheduleComponent.jsx:100-114 | pushing in iteration order keeps each bucket sorted by date when the list is |
| `PayrollSchedule.GroupOf` | frontend/src/app/components/admin/PayrollScheduleComponent.jsx:103-111 | the bucket a row goes to: This Week iff days-until < 7, Next Week iff 7 <= days-until < 14, and from 14 days on Later This Month iff the payment month number equals today's (years are not compared, as `getMonth()` is not) and Next Month otherwise; `GroupMeaning` shows that for rows built from today this equals a (year, month) comparison |
| `PayrollSchedule.GroupMeaning` | frontend/src/app/components/admin/PayrollScheduleComponent.jsx:103-111 | This Week is days-until < 7, Next Week 7 to 13, Later This Month >= 14 and in today's month of today's year, Next Month >= 14 and in a later month |

## Left out

- Blockchain plumbing is not modelled: deployment, signers, the mock
  aggregator contract and the ETH transfer itself. The caller, the feed
  answer and deposits become parameters and integer updates.
- `checkUpkeep` is not modelled. Its test only logs values and asserts
  nothing, and the contract source is not part of this model.
- Payment-history queries are not modelled (`getPaymentHistory`,
  `getTotalSalaryPaidUSD`). The ledger and its USD total are kept as fields
  of the class, with `totalSalaryPaidUSD` tied to the ledger by the invariant.
  No shown test asserts a successful payout, so the success branch of
  `PerformUpkeep` is a minimal reconstruction.
- DefisalaryTests.PerformUpkeepPaysOncePerPeriod: the payment-history test it
  stands for (`backend/test/Defisalary.js:381-399`) computes the expected ETH
  amount and then stops, because `paySalary` is internal; it asserts nothing.
  The payout, the ledger entry and the same-period rejection this method
  states follow from the reconstructed success branch, not from that test.
- The `joinedAt` timestamp and reading the block clock are not modelled.
  `PerformUpkeep` takes the current day of the month and the current (year,
  month) period as parameters.
- Transfer of ownership is not modelled; the owner is fixed at deployment.
- Addresses are natural numbers, not 160-bit values.
- uint256 overflow is not modelled. Salaries and `usd * 10^36` are unbounded
  integers.
- A non-positive feed answer gives `OracleUnavailable`. No shown test covers
  this case.
- The error for an unregistered wallet is not pinned by any test. In update
  and remove the model reports `EmployeeNotFound` before the
  "Employee not active" check.
- Lookups of an unknown wallet or id return `None`. What the contract returns
  there is not shown.
- DefisalaryContract.Defisalary.RemoveEmployee: the contract says which
  wallets remain in the active list, and its length. It does not give their
  order. The body moves the last address into the freed slot, but no test
  pins the order after a removal.
- PayrollSchedule.SortByDate: stability (rows with equal dates keep their
  relative order) is not stated. The in-place update of the JavaScript array
  is modelled as a function returning the sorted sequence.
- Time of day, time zones, daylight-saving shifts and the millisecond
  `Math.ceil` division are not modelled. Days-until is the whole-day
  difference between day numbers. That difference matches the rounded-up
  millisecond difference when today's time is after midnight.
- `groupPaymentsByWeek` reads its own `new Date()`. The model uses the same
  `today` as `fetchEmployees`.
- The float conversion `Number(formatUnits(salaryUSD, 0))` is not modelled.
  Salaries are exact integers, so salaries above 2^53 do not lose precision
  as they would in JavaScript.
- Years are natural numbers on the proleptic Gregorian calendar.
- Rendering (JSX, `formatDate`), loading state and error logging are not
  modelled.
- The other dashboard components are not modelled: they are forms, network
  fetches and floating-point formatting.
