# Language catalog search — Dafny model

The page script `script.js` loads a catalog of programming languages from
`data.json` once, shows one card per language in `.card-container`, and
filters the cards as the user types in the search input. Each record has a
name (`nome`), a description (`descricao`), a release year (`ano_lancamento`)
and a link (`link`).

This project models the three parts of the script that hold logic:

- `iniciarBusca`: the typed term is lowercased, then trimmed. The search keeps
  the records whose lowercased name or lowercased description contains that
  term. The result is rendered.
- `renderizarCards`: the container is cleared. It then receives either the
  single "no match" feedback paragraph or one card per record, in order.
- `carregarDados`: a request that succeeds and parses replaces the catalog
  and renders it in full. Any failure puts the single error paragraph in the
  container.

Files:

- `strings.dfy` (module `Strings`) holds the JavaScript string operations the
  search uses: `toLowerCase` (ASCII letters), `trim` (the ECMAScript
  whitespace and line-terminator set) and `includes`. It also holds the
  lemmas relating them.
- `catalog.dfy` (module `Catalog`) holds the record, term normalisation and
  the filter. The filter's lemmas are here: exactness, order, empty term, and
  invariance under case and padding.
- `page.dfy` (module `Page`) holds the view elements, the request outcome and
  the class `App`. `App` has the module-level state of the script:
  `todasLinguagens` and the container contents. Its methods are `Render`,
  `Search` and `Load`.

`App` carries two ghost fields. `phase` is the page's state machine:
Unloaded, Ready or Failed. `shownTerm` is the normalised term whose results
are on display. `App.Valid` states the page invariant:

- before loading, the catalog is empty;
- once loaded, the container shows exactly the catalog filtered by the last
  term.

The constructor, `Search` and `Load` keep this invariant. `Render` does not
keep it on its own: it is the rendering step that `Search` and `Load` call,
and it shows whatever list it is given.

## After a failed load

A failed load is not terminal. The `input` listener is registered whatever
the load did (`script.js:86-88`). A keystroke after a failed start-up
therefore filters the empty catalog and replaces the error message with the
"no match" feedback. `Page.FailedLoadThenSearch` states this sequence.

## Model

| member | source | states |
|---|---|---|
| Strings.LowerChar | script.js:40 | An upper-case ASCII letter maps to its lower-case letter, 32 code points up. Every other character is kept. The result is never an upper-case letter. |
| Strings.Lower | script.js:40 | Lowercasing maps characters one by one and keeps the length. |
| Strings.LowerKeepsSpace | script.js:40 | A character is whitespace after lowering exactly when it was before. |
| Strings.LowerIdempotent | script.js:40 | Lowering an already-lowered string changes nothing. |
| Strings.LowerAppend | script.js:40 | Lowering a concatenation lowers each part separately. |
| Strings.LowerOfSpace | script.js:40 | Lowering leaves an all-whitespace string as it is. |
| Strings.LowerAllSpace | script.js:40 | A string is blank after lowering if and only if it was blank before. |
| Strings.TrimStart | script.js:40 | The result is a suffix of the input. Everything removed is whitespace. The result is empty or starts with a non-whitespace character. |
| Strings.TrimEnd | script.js:40 | The result is a prefix of the input. Everything removed is whitespace. The result is empty or ends with a non-whitespace character. |
| Strings.Trim | script.js:40 | Trimming never lengthens the term. |
| Strings.TrimStartSkips | script.js:40 | Leading whitespace of any kind is invisible to `trimStart`. |
| Strings.TrimEndSkips | script.js:40 | Trailing whitespace of any kind is invisible to `trimEnd`. |
| Strings.TrimOfPadded | script.js:40 | Trimming whitespace-padded text with no whitespace at its ends yields exactly that text. |
| Strings.TrimTrimmed | script.js:40 | The result of `trim` has no whitespace at either end. |
| Strings.TrimEmptyIff | script.js:40 | `trim` yields the empty string if and only if the input is all whitespace. |
| Strings.TrimOfTrimmed | script.js:40 | `trim` leaves a string with no surrounding whitespace unchanged. |
| Strings.TrimIdempotent | script.js:40 | Trimming twice is the same as trimming once. |
| Strings.TrimStartAppend | script.js:40 | Once the input has a non-whitespace character, text appended after it survives `trimStart` untouched. |
| Strings.TrimIgnoresPadding | script.js:40 | Adding whitespace on either side does not change the result of `trim`. |
| Strings.LowerOfPadded | script.js:40 | Lowering leaves surrounding whitespace in place and lowers only the text between. |
| Strings.TrimStartLower | script.js:40 | `trimStart` and lowercasing commute. |
| Strings.TrimEndLower | script.js:40 | `trimEnd` and lowercasing commute. |
| Strings.TrimLowerCommute | script.js:40 | Trimming then lowering gives the same term as lowering then trimming. |
| Strings.IsSpace | script.js:40 | The characters `trim` removes: space, U+0009 to U+000D (TAB, LF, VT, FF, CR), and the non-ASCII members of `IsWideSpace`. |
| Strings.IsWideSpace | script.js:40 | The non-ASCII whitespace `trim` removes: NBSP, the Zs space separators U+1680, U+2000 to U+200A, U+202F, U+205F and U+3000, the line and paragraph separators U+2028 and U+2029, and ZWNBSP U+FEFF. |
| Strings.Contains | script.js:48 | `includes`: the term is a prefix of the string or of one of its suffixes, tried from the left. |
| Strings.ContainsIffOccurs | script.js:48 | `includes` holds if and only if the term occurs at some position of the string. |
| Strings.ContainsEmpty | script.js:48 | Every string includes the empty string. |
| Catalog.Normalize | script.js:40 | The normalised term is never longer than what was typed. |
| Catalog.NormalizeIsNormal | script.js:40 | The normalised term has no surrounding whitespace and is already lower-case. Normalising it again changes nothing. |
| Catalog.Matches | script.js:43-49 | The filter callback: the lowercased name includes the term, or the lowercased description does. |
| Catalog.Filter | script.js:43-49 | Every returned record is a catalog record whose lowercased name or description contains the term. Every such catalog record is returned. The result is no longer than the catalog. |
| Catalog.MatchingIndices | script.js:43-49 | The matching positions are in range and strictly increasing. A position is listed if and only if its record matches. |
| Catalog.FilterSelectsMatching | script.js:43-49 | The result is exactly the matching records in catalog order. Its k-th element is the record at the k-th matching position, so it is a subsequence of the catalog. |
| Catalog.EmptyTermKeepsAll | script.js:43-49 | Filtering by the empty term returns the whole catalog, unchanged and in order. |
| Catalog.NormalizeBlankIff | script.js:40 | A typed term normalises to the empty term if and only if it is all whitespace. |
| Catalog.BlankTermKeepsAll | script.js:40-49 | An empty or whitespace-only search shows the whole catalog. |
| Catalog.NormalizeIgnoresPadding | script.js:40 | Leading or trailing whitespace on the typed term does not change the normalised term. |
| Catalog.SameTermSameResult | script.js:40-49 | Two terms that differ only in letter case and surrounding whitespace normalise alike and select the same records. |
| Catalog.FilterIdempotent | script.js:43-49 | Searching the search result again with the same term returns it unchanged. |
| Page.CardOf | script.js:71-79 | The card built for a record carries that record's name, year, description and link. |
| Page.Cards | script.js:70-82 | One card per record, in order. Card i carries record i's name, year, description and link. |
| Page.RenderedView | script.js:61-82 | An empty list shows only the feedback message. A non-empty list of length n shows exactly n cards, card i built from record i. The error message never appears. |
| Page.IsOk | script.js:17 | `resposta.ok`: the status lies in 200 to 299. |
| Page.Delivers | script.js:15-21 | The load gets past its `try` block only with a response whose status is ok and whose body parsed. |
| Page.App.constructor | script.js:2-6 | The page starts with an empty catalog, an empty container, and the Unloaded phase. |
| Page.App.Render | script.js:59-83 | After rendering, the container holds exactly the rendered view of the list, whatever it held before. Only the container changes. |
| Page.App.Search | script.js:35-53 | Without an input element nothing changes. Otherwise the container shows the catalog filtered by the normalised term. The catalog and the load phase are never modified, and the page invariant is kept. |
| Page.App.Load | script.js:12-29 | A response with status 200..299 whose body parses replaces the catalog and renders it in full (phase Ready). A network error, another status or an unparsable body leaves the catalog as it was, puts the error message alone in the container, and enters Failed. A failure at start-up leaves the catalog empty. |
| Page.RepeatedSearch | script.js:35-53 | Repeating a search with the same input shows the same container, and the catalog is unchanged. |
| Page.FailedLoadThenSearch | script.js:12-53 | At start-up with an HTTP 500 response, the container holds the error message alone and the catalog is empty. A later keystroke replaces it with the "no match" feedback. |

## Left out

- `fetch` and `resposta.json()` (`script.js:15`, `script.js:21`) are network I/O and JSON parsing. Their outcome is a parameter of `App.Load`: a status with a parsed list or no parsed body, or a network error.
- The awaits, and the `DOMContentLoaded` and `input` listener registration (`script.js:86-91`), are event plumbing. The model has no concurrency: each of `Load` and `Search` runs to completion as one step, and a search may run before, or instead of, a load.
- HTML markup is not modelled: the template strings, `innerHTML`, `createElement` and `appendChild` (`script.js:27`, `script.js:65`, `script.js:71-81`). This includes the lack of HTML escaping. Cards and messages are abstract view elements, and the message texts are not modelled.
- `console.error` (`script.js:26`) is logging. Because it is the only place the kind of failure shows, `Load` does not distinguish kinds of failure.
- Strings.Lower: only the ASCII letters A–Z are lowered. The Unicode case mappings of `toLowerCase`, including those that change a string's length, are not modelled.
- The `trim` whitespace set is the ECMAScript WhiteSpace and LineTerminator set, with the space separators of current Unicode. Strings are sequences of code points, not UTF-16 code units.
- Malformed records are assumed away. A record missing `nome` or `descricao` would throw at `script.js:45-46`. A body that parses to something other than a list replaces the catalog first. Depending on the value, `renderizarCards` then throws, renders cards with undefined fields, or shows the feedback message. A later search would throw at `script.js:43`.
- `ano_lancamento` is an integer. The source only displays it, so a non-numeric value in the data file is not modelled.
- The container's initial contents come from the static page markup, which is not part of this model. The model starts with an empty container.
- The doc comment at `script.js:33` says the search runs on form submit. The code runs it on every `input` event (`script.js:87`). The model treats `iniciarBusca` as one operation whatever triggers it.
