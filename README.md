# Expense tracker: weekly totals, list summary and login

A Dafny model of the core of a small expense tracker. The tracker has a Django/tastypie REST
back end and an AngularJS front end. The model covers the following parts:

- **Weekly aggregation** (`expense/resources.py`). Each expense is filed under the ISO 8601
  week (`(iso_year, iso_week)`) of its date. The weeks are ordered, and each one becomes a
  `WeeklyTotal(year, week, expenses)`.
- **List summary.** The metadata of an expense list is given the total and the mean of the
  listed amounts.
- **User endpoints.** The login endpoint answers in three ways. The registration endpoint
  runs a first-failure-wins validation chain.
- **Browser side of login** (`frontend/static/js/users.js`). It covers the error handlers
  that pick the message shown to the user, the `Authorization: ApiKey user:key` header, and
  the client state that a successful login and a logout update.

Modules, one per file:

- `IsoCalendar` (`iso_calendar.dfy`): Gregorian dates and day ordinals (0001-01-01 is day
  1, a Monday), and Python's `date.isocalendar()` algorithm. It carries proofs that this
  algorithm computes the week of ISO 8601:2004 section 3.2.2: the week belongs to the year
  that holds its Thursday, and weeks are numbered from that year's first Thursday. It also
  holds worked dates.
- `Grouping` (`grouping.dfy`): grouping a sequence by a week key, for any element type and
  key function. It defines what a bucket is and what a correct grouping is (`IsGrouping`).
  It holds the bucketing loop and the key sort, plus the laws: partition, order,
  uniqueness, size and conservation of sums.
- `Expenses` (`expenses.dfy`): expenses keyed by the ISO week of their date, and the two
  functions of `resources.py` that build the weekly totals.
- `ListSummary` (`list_summary.dfy`): `alter_list_data_to_serialize`.
- `Json` (`json.dfy`): the values exchanged between server and client, with Python and
  JavaScript truthiness and JavaScript's string conversion.
- `UserResource` (`user_resource.dfy`): `authenticate` and `register`.
- `UsersClient` (`users_client.dfy`): `handleError`, the auth header, and the session state.

Amounts are integer hundredths. The `amount` column is a decimal with two fractional digits.

Two worked inputs, each with a lemma:

- Expenses dated 2014-06-30, 2014-07-02 and 2014-07-07 form two weeks. Week (2014, 27) holds
  the first two, and week (2014, 28) holds the third (`Expenses.SummerOf2014Grouping`).
- Expenses dated 2015-12-31 and 2016-01-02 are both in week (2015, 53)
  (`Expenses.TurnOf2016Grouping`).

## Model

| member | source | states |
|---|---|---|
| `IsoCalendar.IsoCalendarAt` | expense_tracker/expense/resources.py:225 | the library's `isocalendar()` algorithm for a day number in a given Gregorian year: the ISO year is that year or a neighbour, the weekday is 1..7, and a day counted into the next year is in its week 1; `IsoCalendarIsIsoWeek` and `IsoWeekMatchesStandard` state the full property |
| `IsoCalendar.IsoCalendarOf` | expense_tracker/expense/resources.py:225 | `date.isocalendar()` of a calendar date: ISO year within one of the date's year, weekday 1..7, week 1 when the ISO year is the next one; `IsoCalendarIsIsoWeek` states that the triple is the ISO 8601 week date |
| `IsoCalendar.IsoWeekMatchesStandard` | expense_tracker/expense/resources.py:225 | the `(year, week)` taken from `isocalendar()` is exactly the ISO 8601 week of the date: the year holding the Thursday of its Monday-to-Sunday week, numbered from that year's first Thursday (both directions) |
| `IsoCalendar.IsoCalendarIsIsoWeek` | expense_tracker/expense/resources.py:225 | the isocalendar algorithm (week-1 Monday of the year, previous or next year at the edges) yields the Thursday-rule week |
| `IsoCalendar.IsoWeekUnique` | expense_tracker/expense/resources.py:225 | a date has only one ISO week, so the grouping key is well defined |
| `IsoCalendar.IsoWeekBounds` | expense_tracker/expense/resources.py:225 | week numbers lie in 1..53 and the ISO year is the calendar year or a neighbour |
| `IsoCalendar.FourthOfJanuaryInWeekOne` | expense_tracker/expense/resources.py:225 | 4 January is always in week 1 of its own year |
| `IsoCalendar.WeekOneOf2009StartsInDecember` | expense_tracker/expense/resources.py:225 | 2008-12-29 is week 1 of 2009 |
| `IsoCalendar.SummerOf2014Weeks` | expense_tracker/expense/resources.py:225 | 2014-06-30 and 2014-07-02 are (2014, 27); 2014-07-07 is (2014, 28) |
| `IsoCalendar.TurnOf2016Weeks` | expense_tracker/expense/resources.py:225 | 2015-12-31 and 2016-01-02 are (2015, 53); 2016-01-04 is (2016, 1) |
| `Grouping.BucketBy` | expense_tracker/expense/resources.py:222-226 | the `defaultdict(list)` loop yields one bucket per key present, holding exactly the input elements of that key in input order |
| `Grouping.SortKeys` | expense_tracker/expense/resources.py:228 | the sorted keys are strictly increasing in lexicographic `(year, week)` order and are exactly the given keys |
| `Grouping.EarliestExists` | expense_tracker/expense/resources.py:228 | every non-empty set of keys has a least key, so the sort can always take the next one |
| `Grouping.BucketMembership` | expense_tracker/expense/resources.py:225-226 | an element is in a bucket iff it is in the input with that key; a key has a non-empty bucket iff it occurs |
| `Grouping.BucketKeepsInputOrder` | expense_tracker/expense/resources.py:223-226 | a bucket is the input positions of its key, taken in increasing order |
| `Grouping.GroupingPartitions` | expense_tracker/expense/resources.py:223-228 | every bucket is non-empty and holds exactly its key's elements; every input element is in exactly one bucket |
| `Grouping.GroupingSize` | expense_tracker/expense/resources.py:228 | one entry per distinct key of the input |
| `Grouping.EmptyInputHasNoGroups` | expense_tracker/expense/resources.py:222-228 | empty input gives an empty grouping |
| `Grouping.GroupingUnique` | expense_tracker/expense/resources.py:214-228 | there is only one grouping of a given input, so `IsGrouping` determines the result |
| `Grouping.GroupingConserves` | expense_tracker/expense/resources.py:223-226 | any per-element quantity summed over all buckets equals its sum over the input |
| `Grouping.GroupingConservesCount` | expense_tracker/expense/resources.py:223-226 | bucket sizes add up to the input length |
| `Grouping.IncreasingKeysUnique` | expense_tracker/expense/resources.py:228 | two strictly increasing key sequences with the same keys are equal |
| `Grouping.DistinctWhenIncreasing` | expense_tracker/expense/resources.py:228 | strictly increasing keys are pairwise distinct |
| `Expenses.KeyOf` | expense_tracker/expense/resources.py:225 | an expense's key `isocalendar()[:2]` is the ISO 8601 `(year, week)` of its date, with the week in 1..53 |
| `Expenses.OrganiseExpensesIntoWeeks` | expense_tracker/expense/resources.py:214-228 | the result is the grouping of the expenses by ISO week: keys exactly the weeks present, strictly increasing, each with that week's expenses in input order |
| `Expenses.BuildWeeklyTotals` | expense_tracker/expense/resources.py:198-211 | one `WeeklyTotal(year, week, bucket)` per week, in week order, together forming the weekly grouping of the input |
| `Expenses.GroupingKeysAreIsoWeeks` | expense_tracker/expense/resources.py:225-226 | every expense in a week's bucket has that ISO 8601 week, and week numbers are 1..53 |
| `Expenses.WeeklyTotalsSummary` | expense_tracker/expense/resources.py:198-228 | weekly totals are strictly ordered by `(year, week)`, one per distinct week, never empty; their counts sum to the input length and their amounts to the input total; empty input gives no totals |
| `Expenses.SummerOf2014Grouping` | expense_tracker/expense/resources.py:214-228 | expenses of 2014-06-30, 07-02 and 07-07 are grouped as `[(2014,27): first two, (2014,28): third]` |
| `Expenses.TurnOf2016Grouping` | expense_tracker/expense/resources.py:214-228 | expenses of 2015-12-31 and 2016-01-02 form the single week (2015, 53) |
| `ListSummary.TotalAndAverage` | expense_tracker/expense/resources.py:135-145 | the loop computes the sum of the amounts, and the mean, which is 0 for an empty list |
| `ListSummary.AverageProperties` | expense_tracker/expense/resources.py:143-145 | for a non-empty list the mean times the count is the total, and the mean lies between the least and greatest amount |
| `ListSummary.TotalBounds` | expense_tracker/expense/resources.py:139-140 | the total lies between count times the least and count times the greatest amount |
| `ListSummary.ListTotalMatchesWeeklyTotals` | expense_tracker/expense/resources.py:139-140 | the list's total amount and count agree with those of the weekly grouping of the same objects |
| `ListSummary.ListData.AlterListDataToSerialize` | expense_tracker/expense/resources.py:131-149 | `meta` gains `total_amount` (the sum) and `average` (the mean); the objects and all other metadata are unchanged |
| `UserResource.Authenticate` | expense_tracker/expense/resources.py:57-73 | status 200 iff the credential check found an active user, with that user's username, names and API key; 403 "Your account has been disabled" for an inactive user; 401 "Username or password is incorrect" when none was found; refusals carry no API key |
| `UserResource.FirstFailureIsEarliest` | expense_tracker/expense/resources.py:87-98 | the reported message is that of the earliest failing rule, and none is reported iff all rules pass |
| `UserResource.RegistrationChecks` | expense_tracker/expense/resources.py:90-98 | the three rules in the endpoint's order (username truthy, username not taken, password truthy), each with a non-empty message; `RegistrationPriority` and `FirstFailureIsEarliest` state how they combine |
| `UserResource.ValidateRegistration` | expense_tracker/expense/resources.py:84-98 | the `valid`/`message` flags are the first failing rule's message, or valid with an empty message when all pass |
| `UserResource.RegistrationPriority` | expense_tracker/expense/resources.py:90-98 | a missing username is reported before a taken one, which comes before a missing password; validation passes iff the username is truthy and free and the password truthy |
| `UserResource.Register` | expense_tracker/expense/resources.py:75-113 | a validation failure gives 400 with its message; a creation error gives 400 with the error; otherwise the answer is the login response |
| `UsersClient.HandleError` | expense_tracker/frontend/static/js/users.js:30-47 | for 400/401/403 the rejection is a truthy `reason` of the body, else the default message; for other statuses a truthy `error_message`, else "An unknown error occurred" |
| `UsersClient.HandleAuthError` | expense_tracker/frontend/static/js/users.js:49 | the login handler always rejects with a truthy value, and never with the registration default unless the body itself carries that text |
| `UsersClient.HandleRegError` | expense_tracker/frontend/static/js/users.js:50 | the registration handler always rejects with a truthy value, and never with the login default unless the body itself carries that text |
| `UsersClient.AuthAndRegErrorsDifferOnlyInDefault` | expense_tracker/frontend/static/js/users.js:49-50 | the login and registration handlers agree except when both fall back to their own default, which happens exactly for 400/401/403 without a truthy `reason` |
| `UsersClient.RejectionIsTruthy` | expense_tracker/frontend/static/js/users.js:30-47 | with a non-empty default the user is always given a non-empty message |
| `UsersClient.RefusalReachesClient` | expense_tracker/frontend/static/js/users.js:32-37 | a server refusal with reason `m` reaches the user as `m`, or as the default when `m` is empty |
| `UsersClient.LoginFailureMessages` | expense_tracker/frontend/static/js/users.js:49 | wrong credentials and a disabled account reach the user as the server's own reasons |
| `UsersClient.RegistrationFailureMessages` | expense_tracker/frontend/static/js/users.js:50 | every failed registration rule reaches the user as its own message |
| `UsersClient.AuthHeader` | expense_tracker/frontend/static/js/users.js:56-57 | the header is the scheme `ApiKey `, then the username, one colon and the key, with nothing else; `AuthHeaderRoundTrip` reads it back |
| `UsersClient.HeaderFor` | expense_tracker/frontend/static/js/users.js:56-57 | for string `username` and `api_key` fields the header is `AuthHeader` of them; a body that is not an object gives `ApiKey undefined:undefined` |
| `UsersClient.AuthHeaderRoundTrip` | expense_tracker/frontend/static/js/users.js:56-57 | the header `"ApiKey " + username + ":" + api_key` reads back into that username and key whenever the username has no colon |
| `UsersClient.LoginHeader` | expense_tracker/frontend/static/js/users.js:56-57 | after a successful login the header names that user and that user's API key |
| `UsersClient.DisplayNameOf` | expense_tracker/frontend/static/js/users.js:91-98 | the displayed name is `null` without a user, else the user's `username` |
| `UsersClient.Session.constructor` | expense_tracker/frontend/static/js/users.js:74 | the page starts with no user, no header and a `null` display name, in a consistent state |
| `UsersClient.Session.SetUser` | expense_tracker/frontend/static/js/users.js:75-81 | the service and the root scope hold the new user and the display shows its name; header and route are unchanged |
| `UsersClient.Session.HandleSuccess` | expense_tracker/frontend/static/js/users.js:52-60 | the header is built from the body's `username` and `api_key`, the body becomes the user and the route becomes `/`; a `null` body changes nothing; the session invariant holds |
| `UsersClient.Session.Logout` | expense_tracker/frontend/static/js/users.js:99-104 | no user, no header, no display name, route `/login/`; the session invariant holds |
| `Json.ToJsString` | expense_tracker/frontend/static/js/users.js:56 | the text `+` makes of a value: strings unchanged, `undefined` and `null` by name, integers in canonical decimal form (no leading zero except for `0` itself, a leading minus when negative) that reads back as the number |
| `Json.NatStringRoundTrip` | expense_tracker/frontend/static/js/users.js:56 | the decimal digits written for a natural number read back as that number (JavaScript writes numbers this way below 10^21) |

## Left out

- Django's ORM and tastypie's plumbing are not modelled. This covers queries, `create_user`,
  `save`, `method_check`, `deserialize`, `create_response` and the `Meta` configuration.
  The usernames already in use, the credential check's result and the outcome of user
  creation are parameters.
- Python's `sorted` is modelled by its result only. `Grouping.SortKeys` takes the least
  remaining key each time.
- An expense carries the calendar date of its stored timestamp, as `.date()` truncates it
  (in UTC when Django's time-zone support is on). The time of day and the zone are not
  modelled, so the week is the timestamp's, not the user's local week.
- Decimal arithmetic is not modelled. Amounts are integer hundredths. The mean is an exact
  real, without `Decimal`'s 28-digit rounding.
- The `WeeklyTotal` class body is not part of this model. Only its constructor arguments
  `(year, week, expenses)` are represented.
- The `post_save` API-key creation and `make_api_key` (clock, SHA-1, database) are not
  modelled. Neither is the Django password check behind `authenticate`.
- UserResource.IsTaken: a username that is not a string is treated as free. Django's
  coercion of such values to text is not modelled.
- UserResource.Register: the exception raised by user creation is represented by its
  message text. Its serialisation by tastypie is not modelled.
- Json.ToJsString: writes every integer in full decimal digits. JavaScript uses exponent form
  (`1e+21`) from 10^21 up and cannot hold integers above 2^53 exactly; neither is modelled.
- JSON numbers are integers. JavaScript's built-in properties of strings and arrays (such
  as `length`) are not modelled as members.
- `UserController`, the promise chaining (`then`/`catch`), the `setUserEvent` broadcast
  mechanism beyond its effect on the displayed name, and all other controllers and
  services are UI and HTTP glue and are not modelled. That includes expenses, weekly
  totals, filters and routing.
- Tastypie's parsing of the `Authorization` header is not part of this model.
  `UsersClient.ParseAuthHeader` is an independent reading of the header, used to state what
  the header carries.
