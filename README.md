# Guild donation checker: a verified model

The donation checker is a daily batch job for a game server. For each
configured guild it fetches the member list and the guild's donation
ledger, works out which members donated a positive amount today, and
merges that into a history document. The document maps
guild id → { month key `YYYY-MM` → { date key `YYYY-MM-DD` → { member id → true } },
`members`: the latest roster }.

This project models the logic of that job over already-decoded inputs:

- `DateKeys` (date_keys.dfy): the date and month keys as pure string
  functions of year, month and day, including JavaScript's decimal rendering
  and `padStart(2, '0')`.
- `Donors` (donors.dfy): the ledger, the donor-extraction loop (a method
  proved against the specification function `DonorMap`), and the outcome of
  one guild's fetch on a given response. A failed request or decoding is
  `None`; a missing `data` field also gives a failed fetch.
- `History` (history.dfy): the history document as a value, the merge of
  one guild's fetch (`MergeGuild`) and of a whole run (`RunAll`), the lemmas
  about them, and the class `DonationHistory`. Its methods update the
  document field in place, as the job does, and are proved equal to those
  functions.
- `Wrappers` (wrappers.dfy): `Option`, which stands for null and absent fields.

The list of guilds is a parameter of `Run`, not a constant: the job itself
checks guilds `64` and `40`. Each guild's HTTP responses are parameters too.

## Model

| member | source | states |
|---|---|---|
| `DateKeys.NatToString` | donation_checker.js:21 | A natural number renders to a non-empty string of digits with no leading zero, except for zero itself |
| `DateKeys.IntToString` | donation_checker.js:21 | A non-negative year renders as its digits; a negative year renders as `-` followed by the digits of its magnitude |
| `DateKeys.Pad2` | donation_checker.js:21 | `padStart(2, '0')`: the result has length max(2, length of the rendering), ends with the rendering, and has only `0`s before it; it never truncates |
| `DateKeys.DateKey` | donation_checker.js:17-22 | The date key of getTodayDate: year, zero-padded month and zero-padded day joined by `-`. For any calendar integers it starts with the month key of the same year and month |
| `DateKeys.MonthKey` | donation_checker.js:24-28 | The month key of getCurrentMonthKey: year and zero-padded month joined by `-`. Its shape is stated by `MonthKeyIsDatePrefix` |
| `DateKeys.NatToStringRoundTrip` | donation_checker.js:21 | Reading the digits of a rendered number gives the number back |
| `DateKeys.NatToStringLength` | donation_checker.js:21 | A number with k digits renders to exactly k characters |
| `DateKeys.Pad2TwoDigits` | donation_checker.js:21 | A month or day below 100 becomes exactly two digits that read back as the number; below 10 it gets a leading `0` |
| `DateKeys.DateKeyFormat` | donation_checker.js:17-22 | For a 4-digit year and a month and day below 100, the date key has length 10 and the shape `YYYY-MM-DD`, and its groups read back as year, month and day |
| `DateKeys.MonthKeyIsDatePrefix` | donation_checker.js:17-28 | For a 4-digit year, the month key has length 7 and is the 7-character prefix of every date key of that month |
| `DateKeys.DateKeyInjective` | donation_checker.js:17-22 | Within those ranges, two dates have the same key if and only if they are the same date |
| `Donors.IsDonor` | donation_checker.js:49-51 | An id is a donor only when its ledger entry is present, reads as an integer and is positive; a missing or malformed entry makes no donor |
| `Donors.LedgerOf` | donation_checker.js:43 | The decoded `donate` ledger, or an empty ledger when the field is absent or empty |
| `Donors.DonorMap` | donation_checker.js:47-54 | The donor map that `ExtractDonors` computes: each listed member with a positive amount, mapped to true. Its properties are the four `Donors` lemmas below |
| `Donors.FetchOutcome` | donation_checker.js:31-66 | What fetchDonationData returns on a given response: null on a failed fetch or missing `data`, otherwise the guild id, its name, the donor map and the member list |
| `Donors.ExtractDonors` | donation_checker.js:47-54 | An id is a key of the result if and only if it is on the member list and its ledger amount is positive; every value is true |
| `Donors.FetchDonationData` | donation_checker.js:31-66 | The result is null if and only if the fetch failed or the guild info has no `data`; otherwise it carries the guild id, the fetched member list unchanged and exactly the donors |
| `Donors.DonorMapDependsOnlyOnPositivity` | donation_checker.js:49-53 | Two ledgers that agree on which members gave a positive amount give the same donor map, so amounts of 2 and 200 are alike |
| `Donors.DonorMapShape` | donation_checker.js:47-54 | The keys of the donor map are member ids, and every value is true |
| `Donors.NonMembersIgnored` | donation_checker.js:47-54 | A ledger entry for an id that is not on the member list has no effect on the donor map |
| `Donors.AbsentLedgerNoDonors` | donation_checker.js:43 | An absent `donate` field gives an empty ledger and therefore no donors |
| `History.Roster` | donation_checker.js:103-106 | The roster has one `(id, name)` entry per fetched member, in the fetched order |
| `History.HasDonors` | donation_checker.js:91 | The merge guard: the fetch succeeded and its donor map has at least one key |
| `History.MergeRecord` | donation_checker.js:95-106 | A guild's record after a merge with donors: the missing guild and month levels are created, today's entry is set to the donor map and the roster is replaced |
| `History.MergeGuild` | donation_checker.js:91-110 | The merge of one guild's fetch: the document with that guild's record from `MergeRecord` when the fetch found donors, otherwise the document itself |
| `History.RunAll` | donation_checker.js:88-111 | The document after the run has merged every guild's fetch in order. `RunAllAt` characterises it guild by guild |
| `History.RunAllStep` | donation_checker.js:88-110 | One more turn of the run is one more merge of that guild's fetch |
| `History.MergeWithoutDonorsIsNoOp` | donation_checker.js:91-110 | A failed fetch or a fetch with zero donors leaves the document exactly unchanged |
| `History.MergeWithDonors` | donation_checker.js:95-106 | After a merge with donors, `history[g][month][today]` is the donor map and `history[g].members` is the fetched roster. The guild ids become the old ones plus g, g's month keys the old ones plus the month, and the month's date keys the old ones plus today; every other guild, month and date keeps its value |
| `History.MergeRecordOverwrites` | donation_checker.js:95-106 | A later merge with donors for the same guild and day completely replaces an earlier one |
| `History.MergeIdempotent` | donation_checker.js:91-106 | Merging the same fetch twice on one day gives the same document as merging it once |
| `History.RunAllAt` | donation_checker.js:88-111 | After a run, a guild's entry is its old entry when none of its fetches found donors. Otherwise it is the old entry merged with the last fetch that found donors |
| `History.RunLeavesOtherGuilds` | donation_checker.js:88-111 | A guild the run does not check keeps its entry, or stays absent |
| `History.RunWithoutDonorsIsNoOp` | donation_checker.js:88-111 | A run in which no fetch succeeded with donors leaves the document unchanged |
| `History.RosterIsLatest` | donation_checker.js:99-106 | After a run, a guild's roster and today's donor map come from its last fetch with donors; nothing of an earlier roster survives |
| `History.RunIdempotent` | donation_checker.js:80-111 | Running the job twice on one day with the same fetches gives the same document as running it once |
| `History.DonationHistory.Load` | donation_checker.js:70-78 | The loaded document is the stored one, or empty when the file was missing or did not parse |
| `History.DonationHistory.Merge` | donation_checker.js:91-110 | The in-place merge of one guild's fetch leaves exactly the document `MergeGuild` describes |
| `History.DonationHistory.Run` | donation_checker.js:80-111 | Fetching and merging each guild in turn, with the keys of the given day, leaves exactly the document `RunAll` describes |

## Left out

- HTTP requests, `Promise.all` and the endpoint URLs: network I/O. Each guild's decoded responses are a parameter, and `None` stands for any failed request.
- Decoding with `JSON.parse` of the `data`, `donate` and member `info` strings, and `JSON.stringify` of the document: foreign library calls. The model takes these fields already decoded. A `donate` string that decodes to JSON `null` makes the real fetch fail when the member list is not empty, because the ledger is first read inside the loop over members; with no members the fetch succeeds with no donors. The model does not represent a `null` ledger.
- A member `info` that does not parse makes `JSON.parse` throw inside `run`, outside any `try`, and aborts the whole job. The model assumes every `info` decodes.
- `parseInt` on arbitrary text: a ledger entry is either the integer `parseInt` would read or `Malformed` (NaN). Missing and malformed entries are not donors.
- The wall clock (`new Date()`) and the UTC/ICT day boundary: year, month and day are parameters.
- `DonationHistory.Run` derives both keys from one (year, month, day). The job reads the clock twice, once for today's date and once for the month key. A run that crosses midnight at the end of a month would store today's date under the next month's key; the model cannot show that.
- Reading and writing `donation_history.json`, console logging and `process.exit(1)` on a failed write: filesystem and process I/O. Loading is modelled as an optional stored document.
- The loaded file is assumed to have the document's shape. A guild entry that is some other falsy or non-object JSON value is outside the model.
- Key order of JavaScript objects: maps have no order, so the model does not say anything about the order of keys in the written file.
- The shallow copy `{ ...existingHistory }`: the document is a single value owned by `DonationHistory`, so aliasing does not arise.
