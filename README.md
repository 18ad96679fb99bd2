# Dataset description dashboard: a verified model of its core

The dashboard serves a list of dataset summaries and shows them as cards
that the user filters in the browser. Its core is three pieces of
sequential logic, modelled here in Dafny:

- **Discovery** (`server.js`, `walkForDescriptions`): the recursive walk of
  the dataset root that collects every regular file named `*_description.json`.
  The directory tree is an inductive datatype; a path is its list of segments
  below the dataset root.
- **Normalisation** (`server.js`, `buildDatasetSummary`): one parsed
  description flattened into a fixed summary record through `||`, `??`,
  `?.` fallback chains and a final number check. Parsed JSON is a `Json`
  datatype and JavaScript truthiness, `||`, `??` and `?.` are written out.
- **Loading** (`server.js`, `loadDatasetDescriptions`): the loop that reads,
  parses and summarises each found file, skipping the ones that fail, and
  the final sort by name. Reading plus `JSON.parse` is a function parameter
  returning `None` on failure; `localeCompare` is an abstract total preorder.
- **Presentation** (`public/main.js`): the checkbox and keyword filter, the
  category counts, the placeholder-or-cards decision, and `formatDate`'s
  placeholder.

Files: `wrappers.dfy` (Option), `js_values.dfy` (JSON values and the
JavaScript operators), `text.dfy` (`endsWith`, `includes`, `trim`, ASCII
`toLowerCase`, path joining), `discovery.dfy`, `normalise.dfy`,
`loader.dfy`, `dashboard.dfy`.

Notes on what the code does:

- The walk does not follow symbolic links at all: `readdir` entries for
  links are neither directories nor files, so they are skipped (`Other`
  entries).
- `numberOfData` takes the first of its three sources that is not `null` or
  `undefined`, then keeps it only if it is a number: a present string blocks
  the later sources and yields `null`.
- A file whose JSON is the literal `null` is skipped like a parse failure,
  because `buildDatasetSummary` throws on `null.dataset`.
- The server copies `type` as it is (only the page lower-cases it), and
  copies `id`, `name`, `crop`, `dataType` and the other passed-through
  fields as whatever truthy JSON value they hold, strings or not.

## Model

| member | source | states |
|---|---|---|
| `Discovery.WalkExactly` | server.js:18-33 | a path is in the walk's result iff it is the directory followed by the segments of a regular file at any depth whose name ends with `_description.json`; directories and other files never appear |
| `Discovery.WalkOnce` | server.js:18-33 | when every listing names each entry once, as a real directory does, no path appears twice in the walk, so each description file is found exactly once |
| `Discovery.WalkEntryExactly` | server.js:21-29 | the same, for one listing entry: a subdirectory contributes its matches, a file itself iff its name has the suffix, anything else nothing |
| `Discovery.WalkAppend` | server.js:20-32 | the walk of a listing is the walk of its first part followed by that of its second part, so matches keep `readdir` order |
| `Discovery.WalkSplicesDirectory` | server.js:20-32 | a subdirectory's matches are spliced in at that subdirectory's position in the listing |
| `Normalise.BuildDatasetSummary` | server.js:35-54 | fails (throws) exactly on a `null` description; otherwise the summary has truthy `name`, `crop`, `type`, `version`, a number-or-null `numberOfData`, truthy-or-null `dataType`, `generatedAt`, `relatedGenotype`, a truthy-or-empty `cropCode`, a truthy `id` unless the basename is empty, and `filePath` the relative path |
| `Normalise.TypeFallback` | server.js:36-37 | `type` is `dataset.type` if truthy, else `dataType.type` if truthy, else `'unknown'` |
| `Normalise.NumberOfDataFallback` | server.js:38-47 | `numberOfData` is the first of `numberOfData`, `dataType.numberOfPhenotype`, `dataType.numberOfSNP` that is not nullish, kept only if it is a number; `null` when all three are missing |
| `Normalise.NumberOfDataZeroAndBlocking` | server.js:38-47 | a present `0` is kept although a later source holds a number, and a present string blocks that number and gives `null` |
| `Normalise.FieldDefaults` | server.js:41-51 | each falsy field takes its default (`'Unnamed dataset'`, `'Unknown crop'`, `''`, `'N/A'`, the basename, `null`) and each truthy one is copied |
| `Normalise.PathFields` | server.js:49-52 | `filePath` is the relative path; `storagePath` is `storage.locationOfFile` when truthy, else that path's directory (`.` at the root level) |
| `Normalise.RiceDescriptionExample` | server.js:35-54 | a description with only a dataset name, crop and version gets type `unknown`, empty crop code, null `numberOfData` and storage path `a` |
| `Loader.SummariesAppend` | server.js:60-69 | the summaries of two file lists in sequence are the summaries of each, concatenated |
| `Loader.FailureIsSkipped` | server.js:60-69 | a file whose read, parse or build fails contributes nothing and does not affect the files before or after it |
| `Loader.OneSummaryPerLoadedFile` | server.js:60-69 | the accumulated list has exactly one summary per successfully loaded file, at the position given by the successes before it |
| `Loader.SummariesComeFromFiles` | server.js:60-69 | every accumulated summary is the summary of some found file that loaded |
| `Loader.SortByName` | server.js:71 | the sorted list has the same length and the same elements (as a multiset) as its input |
| `Loader.SortByNameSorted` | server.js:71 | for a total preorder on names, the sorted list is non-decreasing by name and a permutation of its input |
| `Loader.SortSortedUnchanged` | server.js:71 | sorting a list already ordered by name returns it unchanged |
| `Loader.WheatBarleyExample` | server.js:71 | "Wheat" found before "Barley" comes out as Barley, Wheat |
| `Loader.RiceLoadExample` | server.js:56-69 | with a valid `a/x_description.json` and an unreadable `b/y_description.json`, the walk finds both and loading yields the single summary Rice-A |
| `Loader.LoadDatasetDescriptions` | server.js:56-72 | the result is the sorted accumulation of the summaries of every found file: sorted by name, a permutation of those summaries; the logged files are exactly the found files that failed, and summaries plus failures account for every found file |
| `Text.Trim` | public/main.js:95 | `trim` returns the slice of its input between leading and trailing white space, starts and ends with a non-space, and is empty exactly when the input is all white space |
| `Dashboard.FormatDate` | public/main.js:8-9 | `formatDate` shows the `-` placeholder exactly for a falsy value |
| `Dashboard.CountOfType` | public/main.js:16-17 | a category count never exceeds the number of datasets |
| `Dashboard.CategoriesDisjoint` | public/main.js:15-17 | two different categories together count at most every dataset |
| `Dashboard.SummaryPills` | public/main.js:14-25 | the pills are the total, the genotype count and the phenotype count, in that order, and genotype plus phenotype is at most the total |
| `Dashboard.RenderDatasets` | public/main.js:37-89 | an empty list renders only the placeholder; a dataset whose lower-cased type is empty or holds white space makes `classList.add` throw, leaving the list empty with no card appended; otherwise exactly one card per dataset, in input order, each with a valid type class |
| `Dashboard.ActiveTypes` | public/main.js:92-94 | a value is active iff some checked box has it as its lower-cased value |
| `Dashboard.Filter` | public/main.js:97-104 | the result is a subsequence of the input (order kept) holding exactly the datasets whose lower-cased type is active and whose lower-cased name or crop contains the keyword, or any when the keyword is empty |
| `Dashboard.FilterCount` | public/main.js:97-104 | for every record, the result holds it as many times as the input when it passes and never when it fails, so together with the subsequence clause the result is exactly `Array.filter`'s, duplicates included |
| `Dashboard.FilterIdempotent` | public/main.js:91-105 | filtering an already filtered list with the same state returns it unchanged |
| `Dashboard.NoneChecked` | public/main.js:92-98 | with no box checked the result is empty |
| `Dashboard.BlankSearchIgnored` | public/main.js:95-100 | a search box holding only white space filters like an empty one |
| `Dashboard.AllCheckedShowsAll` | public/main.js:92-100 | with every present type checked and a blank search the result is the whole list |
| `Dashboard.PillCountMatchesFilter` | public/main.js:14-17 | with at least one box checked, every checked box lower-casing to the same category, and a blank search, the number of datasets shown equals that category's count |
| `Dashboard.KeywordExample` | public/main.js:91-105 | with the genotype box checked and keyword `ric`, Rice-A passes and Maize-B does not |

## Left out

- The HTTP server, routing and `serveApi` (server.js:74-84, 102-113): I/O plumbing; the 500 response is not modelled.
- `serveStatic` (server.js:86-100): it rests on Node's path normalisation, `existsSync` and streams.
- `readdir` failures: a directory that cannot be listed rejects the whole walk; every directory in the tree is readable here.
- Reading files and `JSON.parse`: a `Reader` parameter gives the parsed value or `None`; `console.error` is modelled only as the list of skipped files, not its message.
- `localeCompare`: an abstract total preorder on name values. The comparator throws when a name is not a string (no `localeCompare` method); that failure is not modelled.
- Loader.SortByNameSorted: states sortedness and permutation. Stability (equal names keep their found order) is built into the insertion sort but proved only for an already sorted input, by `Loader.SortSortedUnchanged`.
- The concurrency of the walk (`Promise.all`): it keeps entry order, so the walk is plain recursion.
- Unicode `toLowerCase`: only ASCII letters are lower-cased. `trim` uses the full ECMAScript white-space set.
- Client records: `name`, `crop` and `type` are strings, since `toLowerCase` would throw on anything else; that throw is not modelled.
- Card text: the meta line, the `toLocaleString` count, the `dataType || '-'` text, storage and file path text and the related-genotype label (public/main.js:62-78) are not modelled; a card carries its dataset, type class, `data-*` attributes, formatted date and whether the related block is shown.
- `formatDate`'s truthy branch (`Date` parsing, `toLocaleString`) and the `${total} datasets` text: locale formatting.
- DOM updates, templates, `fetch`, `bootstrap` and the event listeners (public/main.js:1-6, 107-126): UI and asynchronous code. A render that throws is the `Failed` view (an emptied list); the error message `bootstrap`'s `catch` then shows on the first render is not modelled.
