# Availability tracker: history document model

The availability tracker is a browser grid. In it a user picks a status for each
employee, week and day. A small server keeps the result, the *history
document*, in a JSON file. The document is a nested mapping: employee id →
week label → day label → status label (`History.Document`).

This project models the logic that works on that document:

- **The page** (`Client`, from `public/script.js`):
  - Loading.
    - A history response that does not parse becomes `{}`.
  - The cleanup pass.
    - It deletes every employee id that is not in the names list.
    - For each employee it keeps, it deletes every week not in the weeks list.
  - The Save handler's merge.
    - Each table row builds a day map from its dropdowns.
    - That map replaces the row's week under the row's employee.
    - The employee's week map is created first when it is missing.
  - The lookup the grid uses to show a day.
    - It shows the stored status when there is a non-empty one.
    - It shows `"Empty"` otherwise.
- **The server** (`Server`, from `server.js`):
  - The file-backed store: `saveHistoryToFile` and `readHistoryFromFile`.
  - The file system is a class holding a map from path to stored document.

The page's global state (`namesData`, `weeksData`, `historyData`) becomes the
class `Client.Page`. The cleanup and the merge are loops over its `history`
field, as in the script. Each loop is proved equal to a specification
function: `Client.Cleaned` and `Client.Merged`. The properties the page relies
on are proved about those functions. They cover pruning, only-removal,
idempotence, last-row-wins, frame conditions, and "what was saved is what is
shown".

The code has no cache layer. `server.js` holds no Redis client. The only Redis
file is a test mock (`__mocks__/redis.js`) that the server never uses.

## Model

| member | source | states |
|---|---|---|
| `Client.LoadedHistory` | public/script.js:91-95 | the loaded history is the parsed response, or `{}` when parsing failed |
| `Client.Cleaned` | public/script.js:98-108 | after cleanup every employee is listed and every week is listed; keys only shrink at both levels; the day map of every surviving (employee, week) is unchanged; no listed employee and no listed week of a kept employee is removed |
| `Client.ListedEmployeeStays` | public/script.js:99-106 | a listed employee whose weeks are all unlisted stays, mapped to an empty week map |
| `Client.CleanedIdempotent` | public/script.js:98-108 | cleaning the cleaned history with the same lists changes nothing |
| `Client.CleanedHidesInvalid` | public/script.js:98-108 | after cleanup, an unknown employee or an unlisted week renders as seven `"Empty"` days |
| `Client.CleanedKeepsValid` | public/script.js:98-108 | after cleanup, a listed employee's listed week renders exactly as before |
| `Client.Page.Cleanup` | public/script.js:97-108 | the in-place deletion loops leave the history equal to `Cleaned` of the old history with the page's lists |
| `Client.KeptWeeks` | public/script.js:103-107 | the weeks kept for an employee are exactly its listed weeks, each with its day map unchanged |
| `Client.Page.LoadData` | public/script.js:87-108 | stores the fetched lists; the history becomes the cleaned parsed history, or the cleaned `{}` on a parse failure |
| `Client.Page.constructor` | public/script.js:1-4 | the page starts with empty lists and an empty history |
| `Client.CollectDays` | public/script.js:121-124 | the dropdown loop builds exactly `DayMapOf` of the row's dropdowns |
| `Client.DayMapOfKeys` | public/script.js:121-124 | the day map's keys are exactly the day labels of the row's dropdowns |
| `Client.DayMapOfLastWins` | public/script.js:121-124 | a day's value is the value of the last dropdown with that day label |
| `Client.DayMapOf` | public/script.js:121-124 | every day of the built day map comes from one of the row's dropdowns |
| `Client.Put` | public/script.js:126-129 | one row's write: the row's week holds the row's day map; the employee is added when missing and no employee is removed; every other employee and every other week of the row's employee is unchanged |
| `Client.Merged` | public/script.js:118-130 | the merge of all rows only adds or replaces: every employee and every week present before is still present |
| `Client.Page.SaveRows` | public/script.js:118-130 | the row loop leaves the history equal to `Merged` of the old history and the rows |
| `Client.MergedStoresRow` | public/script.js:118-130 | after the merge, each row not overwritten by a later row with the same employee and week is stored at `history[empId][week]` as that row's day map; the employee is created if absent |
| `Client.MergedKeys` | public/script.js:126-129 | after the merge the employees are those before it plus the employees of the rows |
| `Client.MergedKeepsOtherEmployee` | public/script.js:126-129 | an employee named by no row is present and mapped exactly as before |
| `Client.MergedKeepsOtherWeek` | public/script.js:126-129 | a week named by no row for its employee keeps its presence and its day map, also when other weeks of that employee are written |
| `Client.SavedSelectionShown` | public/script.js:118-130 | after the merge, the grid shows for a row's week each day's last dropdown value, when that value is non-empty |
| `Client.DayStatus` | public/script.js:56-59 | the shown status is the stored status when present and non-empty; `"Empty"` when the employee, week or day is missing or the stored status is `""` |
| `Client.WeekStatuses` | public/script.js:56-59 | seven statuses, Mon..Sun, each the day's shown status; all `"Empty"` when the employee or week is missing |
| `Server.FileSystem.ReadHistoryFromFile` | server.js:37-41 | a path with no file reads as `{}`; otherwise the read gives the stored document |
| `Server.FileSystem.SaveHistoryToFile` | server.js:26-30 | returns `true`; the file at the path now holds the document; every other path keeps its existence and content |
| `Server.SaveThenRead` | server.unit.test.js:12-22 | save returns `true`, a file then exists at the path, and reading it gives back the saved document |
| `Server.SaveTwice` | server.js:26-30 | a second save to a path replaces the first; a file at another path is unaffected |
| `Server.ReadMissing` | server.js:37-38 | reading a path with no file gives `{}` and creates no file |

## Left out

- DOM construction, styling and events are not modelled. This covers `createDropdown`, `applyStatusColor`, row parity classes, listeners and `alert`. They are UI. A table row enters the model as a `Client.Row`: the row's employee id, its selected week, and its day dropdowns as (day, value) pairs in row order.
- The name sort with `localeCompare` is not modelled. It uses locale-dependent library collation.
- The default week of a row, `Object.keys(...)[0] || weeksData[0]`, is not modelled. It depends on JavaScript key insertion order.
- The status vocabulary `statusesData` is not modelled. Only the excluded dropdowns use it.
- `fetch` calls, the POST request and its response handling are not modelled. They are network I/O. `loadData` takes the fetched lists and the parse outcome of the history response (a `History.Option`) as parameters.
- Express setup, static serving, the `/save-history` route's 200/500 replies and `app.listen` are not modelled. They are framework wiring.
- JSON text (`JSON.stringify`, `JSON.parse`) and the `fs` calls are not modelled. The file map stores the document value directly, so a malformed file (the exception `JSON.parse` would throw) cannot arise in the model. An I/O error from `writeFileSync` cannot arise either.
- The file store holds history documents only. The unit test saves `{ a: 1 }`, which is not of that shape; `Server.SaveThenRead` states the same round trip for any history document.
- Parsed values are typed as history documents. A history response that parses to something else, such as `null`, an array or nested non-objects, is not modelled.
- Employee ids are strings. The script compares `n.id === empId` against object keys, which are always strings. Numeric ids in the names list would therefore never match. The model assumes string ids.
- Object keys are plain map keys. In the script an employee id or week label that names an inherited `Object.prototype` member (`"constructor"`, `"toString"`, `"__proto__"`, ...) behaves differently: `!historyData[empId]` finds the inherited member, so no own entry is created, and the write at line 129 of `public/script.js` lands on that inherited object; a week label `"__proto__"` sets a prototype instead of adding a key. The lookup at line 56 reads inherited members in the same way. The model treats such ids and labels as ordinary keys, so `Client.Merged`, `Client.MergedStoresRow` and `Client.MergedKeys` do not hold for them in the script.
- No cache, Redis client or cache/file fallback is modelled. The server has none; the Jest mock of `redis` is unused.
- Concurrency between overlapping saves is not modelled. Each call is one atomic step.
