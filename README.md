# Epstein files pipeline — a verified model of its text core

The pipeline turns a directory of released PDF files into a searchable database and a report on
the people the documents mention. This project models its deterministic core in Dafny and proves
what each stage promises:

- **Ingest** (`ingest.dfy`, `store.dfy`). Reads the Bates manifests (`.DAT` files, fields separated
  by `þ`) into a map from first to last Bates number. For each PDF not yet indexed, it adds a
  `documents` row and one `pages` row per extracted page, numbered from 1. The tables are the class
  `Store.Database`; its `Valid()` invariant is that the tables stay consistent. This means ids count
  from 1, filenames are unique, and every document's pages are numbered 1 to its page count.
- **Clean** (`clean.dfy`). `clean_text` drops blank lines, line numbers, Bates stamps, page headers
  and scan artifacts. It then rejoins lines broken mid-sentence and strips the result. `main`
  rewrites only the rows whose text changed, and rebuilds each document's full text from its pages.
- **Classify** (`classify.dfy`). An ordered cascade of marker rules assigns one of twelve document
  types and an interest score between 0 and 100.
- **Condense and reclassify** (`patterns.dfy`, `condense.dfy`).
  - The text is cut at blank lines into pages, and junk pages are dropped.
  - Eighteen boilerplate patterns are deleted in order.
  - The condensed text is re-scored.
  - The regular expressions are written out as matchers that return the match Python's engine finds.
- **Search** (`search.dfy`). Covers the web application's read side:
  - the FTS5 prefix query builder;
  - the two-tier search: the full-text index first, then a `LIKE` scan ordered by (document, page);
  - the snippet window;
  - the filtered document listing;
  - the Dataset 9 id lookup.
- **Report** (`report.dfy`). Covers the merge of the people extracted batch by batch into one entry
  per lower-cased name, and the lenient reader of the model's JSON answers: strip the fence, parse
  strictly, try the closing-bracket fixes, then salvage `{…}` objects.

`text.dfy` holds the Python string operations these use, such as `strip`, `split`, `join`, `find`,
`rfind`, `lower` and `upper`. `seqs.dfy` holds filters, maps and a stable insertion sort for SQL
`ORDER BY` and Python's `sorted`. `wrappers.dfy` defines `Option` and `Result`.

Stages that loop and update variables or tables are methods with loop invariants, each proved equal
to a specification function. The properties are proved about those functions.

Where the project's written design and its code disagree, the model follows the code:

- A query with no word character, such as `???`, builds an empty full-text query. The code then
  skips only the index: the `LIKE` fallback still runs, with the raw tokens (app.py:104,119). See
  `Search.SearchPunctuationOnly`.
- The lenient JSON reader can raise. A fenced answer with no newline raises `IndexError`
  (render_report.py:48). The merge raises `KeyError` when a person without a severity outranks the
  entry it joins (render_report.py:84). Both are modelled as error results. They are the only
  raises modelled: a person value that is not a JSON object of the expected shape makes the merge
  raise as well, and that is left out (see `Report.Person` under "## Left out").

## Model

| member | source | states |
|---|---|---|
| Classifier.Classify | classify.py:5-80 | The type is one of the twelve types and the score lies in [0, 100]. `None` reads as `""`. Under 20 stripped characters gives ("empty", 0). Under 30% letters gives ("scan_garbage", 0), before any other rule. Every other text goes through the cascade. |
| Classifier.Cascade | classify.py:22-80 | The score is min(rule score + 10 per name found + 10 above 1000 characters + 10 more above 5000, 100). The type is the last forcing rule that fires. Without one, deposition and legal apply only over "other". With no type and a score under 20, the type is "minimal" under 100 characters, otherwise "document". |
| Classifier.NameHits | classify.py:61-63 | Each of the 13 names counts at most once. |
| Classifier.DepositionUpperCaseAlternativesDead | classify.py:31-33 | On lower-cased text the `Q\.\s`, `A\.\s` and `WITNESS` alternatives never match. The rule is then exactly its four lower-case words. |
| Classifier.EmailHeaderWins | classify.py:26-28 | An e-mail header line with none of the later forcing markers gives "email" with a score of at least 60. |
| Condenser.KeptPageIsLiterate | condense.py:33-44 | A page that passes the junk test has at least 15 stripped characters, at least a quarter of them letters (so at least 4), and above 50 characters at most 40% digits. |
| Condenser.CleanPage | condense.py:55-59 | A cleaned page is no longer than the page. It has no whitespace at either end and no three newlines in a row. |
| Condenser.StripBoilerplate | condense.py:55-57 | The pattern loop deletes every pattern's matches in list order. |
| Condenser.CondenseText | condense.py:46-62 | The page loop computes the condensed text: `None` and `""` give `""`, otherwise the kept pieces are joined by a blank line. |
| Condenser.KeptStep | condense.py:52-61 | Each page appends its cleaned form, or nothing if it is junk or its cleaned form is 15 characters or fewer. |
| Condenser.KeptFromPages | condense.py:52-61 | Every kept piece is the cleaned form of a non-junk page of the input. |
| Condenser.Piece | condense.py:55-61 | A page yields at most one piece, and that piece is no longer than the page. |
| Condenser.KeptPiecesTidy | condense.py:59-61 | Every kept piece is longer than 15 characters, has no whitespace at either end and no three newlines in a row. |
| Condenser.CondensedTidy | condense.py:59-62 | The condensed text has no three newlines in a row and no whitespace at either end. |
| Condenser.CondensedShrinks | condense.py:46-62 | The condensed text is never longer than the input, and `None` condenses to `""`. |
| Condenser.AllJunkCondensesToEmpty | condense.py:50-54 | A text made only of junk pages condenses to `""`. |
| Condenser.DialogueCount | condense.py:82 | The count is zero exactly when no `\b[QA]\.\s` match exists. |
| Condenser.SentenceCount | condense.py:88 | The count is zero exactly when no `[.!?]\s+[A-Z]` match exists. |
| Condenser.Rescore | condense.py:68-123 | The type is decided by priority: e-mail rule, then more than 5 Q/A lines, then investigative markers over a prior type other than deposition or e-mail, then the prior type. The score is the exact sum of the rule bonuses, demoted by 20 (floored at 0) for tabular text, plus the length bonus, capped at 100. |
| Condenser.Reclassify | condense.py:64-123 | A condensed text under 30 stripped characters gives ("empty", 0). Any other is re-scored from its markers. The score lies in [0, 100]. |
| Condenser.ReclassifyKeepsVocabulary | condense.py:64-123 | With a prior type among the classifier's types, the new type is one too. |
| Condenser.TabularDemotionBounded | condense.py:110-114 | The tabular demotion takes at most 20 points and never goes below 0. |
| Condenser.InvestigativeRaisesScore | condense.py:95-98 | An investigative marker never lowers the score. |
| Condenser.WatchTermRaisesScore | condense.py:73-79 | One more watch term never lowers the score. |
| JunkPatterns.ToBreak | condense.py:8 | The lazy `.*?(?=\n\n\|\Z)` stops at the first blank line at or after the start, or at the end of the text. |
| JunkPatterns.LineEndWithin | condense.py:11 | `\s*$` under `re.MULTILINE` ends at the last line end inside the whitespace run, as the greedy `\s*` backs off. It fails exactly when no line end lies in the run. |
| JunkPatterns.SpacesToLineEnd | condense.py:11 | A match of `\s*$` spans only whitespace and ends before a newline or at the end of the text. It fails only when no line end lies in the whitespace run. |
| JunkPatterns.MatchAt | condense.py:6-31 | A match of any of the eighteen patterns is non-empty and lies inside the text. |
| JunkPatterns.CopyMarkAt | condense.py:11 | A match of `(original\|duplicate\|enhanced original)\s*$` is non-empty and lies inside the text. |
| JunkPatterns.MediaListAt | condense.py:12 | A match of the tape-to-printed-material pattern starts on `magnetic tape` and is non-empty. |
| JunkPatterns.EmailNoticeAt | condense.py:17 | A match of the e-mail notice starts on `this e` and is non-empty. |
| JunkPatterns.RecipientNoticeAt | condense.py:18 | A match of the wrong-recipient notice starts on `if you ` and is non-empty. |
| JunkPatterns.PrivilegeNoticeAt | condense.py:20 | A match of the privilege notice starts on `privileged` and is non-empty. |
| JunkPatterns.NotScannedAt | condense.py:22 | A match of the not-scanned marker starts on `item` and is non-empty. |
| JunkPatterns.GrandJuryFooterAt | condense.py:24 | A match of the grand-jury footer starts on `grand jury material` and is non-empty. |
| JunkPatterns.ExhibitStampsAt | condense.py:28 | A run of exhibit stamps starts on `GM_` and is non-empty. |
| JunkPatterns.StampRun | condense.py:28 | The greedy repetition ends inside the text, never before its start. |
| JunkPatterns.ListingRep | condense.py:30 | A repetition of listing units ends inside the text. Before the third unit it must consume a unit that starts on a capital letter. |
| JunkPatterns.Sub | condense.py:57 | Deleting a pattern's matches never lengthens the text. |
| JunkPatterns.MatchStartsWithLead | condense.py:6-31 | A case-insensitive pattern matches only where its leading literal stands in the lower-cased text. The stamp pattern starts on `GM_`, the listing pattern on a capital letter. |
| JunkPatterns.SubFromNoMatch | condense.py:57 | Where a pattern has no match, deleting its matches leaves the text unchanged. |
| JunkPatterns.SubWithoutLead | condense.py:56-57 | A case-insensitive pattern whose literal is absent leaves the text unchanged. |
| JunkPatterns.ApplyAll | condense.py:56-57 | Deleting the patterns' matches in order never lengthens the text. |
| Cleaner.CleanText | clean.py:5-36 | The line loop computes `clean_text`. A text under 10 stripped characters comes back as it was. |
| Cleaner.KeptLinesStep | clean.py:11-27 | Each line appends its stripped form when no rule drops it. |
| Cleaner.KeptLinesMembers | clean.py:11-27 | A line is kept exactly when it is the stripped form of an input line that is not blank and that no drop rule matches. |
| Cleaner.KeptLinesShape | clean.py:12-27 | Every kept line is non-empty, has no whitespace at its ends and no newline. |
| Cleaner.KeptLinesSingle | clean.py:12-27 | A single line is kept, stripped, exactly when no rule drops it. |
| Cleaner.KeptLinesPair | clean.py:11-27 | The lines kept from two lines are those kept from each, in order. |
| Cleaner.KeptLinesBoth | clean.py:11-27 | Two stripped lines that no rule drops are both kept, in order. |
| Cleaner.ShortLineKept | clean.py:16-26 | A stripped line of four or more characters that starts with neither `P` nor `E` and does not contain the scan-artifact phrase is kept. Under 15 characters the phrase cannot occur, so such a line is always kept. |
| Cleaner.Rejoin | clean.py:34 | Rejoining keeps the length. |
| Cleaner.RejoinChanges | clean.py:34 | A newline becomes a space exactly when it sits between `[a-z,]` and `[a-z]`. Every other character is unchanged. |
| Cleaner.JoinedKeptNoBlankLine | clean.py:9-29 | The kept lines joined by newlines contain no blank line. |
| Cleaner.TidiedNoBlankLine | clean.py:32-36 | On text without a blank line, the `\n{3,}` collapse changes nothing, and rejoining and stripping add no blank line. |
| Cleaner.CleanedTidy | clean.py:29-36 | A cleaned text that was not returned unchanged has no blank line and no whitespace at either end. The collapse step never changes anything. |
| Cleaner.CleanedRejoinsLines | clean.py:29-36 | A sentence broken after a lower-case letter or comma comes back as one line with a space at the break. |
| Cleaner.RejoinBroken | clean.py:34 | The break between `[a-z,]` and `[a-z]` becomes a space. |
| Cleaner.TidiedBroken | clean.py:32-36 | Collapse, rejoin and strip turn two broken lines into one. |
| Cleaner.CleanedSingleDropped | clean.py:6-27 | A one-line text of 10 or more characters that a rule drops cleans to `""`. |
| Cleaner.ExampleNotice | clean.py:25 | The rejoined line `item was not scanned` is dropped as a scan artifact. |
| Cleaner.CleanedTwiceDiffers | clean.py:5-36 | A broken sentence whose rejoined line is dropped cleans to the rejoined line the first time and to `""` the second time. |
| Cleaner.CleanedNotIdempotent | clean.py:5-36 | Some text cleans differently the second time. |
| Cleaner.BrokenSentenceNotIdempotent | clean.py:5-36 | Any such broken sentence is a witness that cleaning is not idempotent. |
| Cleaner.CleanedPagesLayout | clean.py:44-48 | Cleaning rewrites only texts: ids, owners and page numbers stay row for row. |
| Cleaner.DifferingZero | clean.py:46-48 | No row is counted exactly when the tables are unchanged. |
| Cleaner.CleanPage | clean.py:45 | One row's text goes through `clean_text`. |
| Cleaner.CleanRows | clean.py:43-48 | The loop produces the cleaned rows and counts exactly the rows whose text changed. |
| Cleaner.CleanPages | clean.py:40-50 | Every page whose cleaned text differs is rewritten, and the rewrites are counted. Documents are untouched, and the tables stay consistent. |
| Cleaner.CleanedPagesConsistent | clean.py:44-48 | Rewriting page texts keeps the tables consistent. |
| Cleaner.JoinedPagesInOrder | clean.py:55-56 | In consistent tables, a document's recomputed full text is its page texts, page 1 first, joined by a blank line. |
| Cleaner.RecomputedDocuments | clean.py:53-57 | Every document's full text is the join of its pages. All other columns are unchanged. |
| Cleaner.RecomputeFullText | clean.py:53-58 | The document loop rebuilds every full text, leaves the pages alone and keeps the tables consistent. |
| Cleaner.IndexRows | clean.py:63-65 | The rebuilt index has at most one row per page. |
| Cleaner.IndexOneRowPerPage | clean.py:63-65 | In consistent tables the index has exactly one row per page, in page-table order, carrying the page's id, its document's filename, its number and its text. |
| Ingestor.UpdateAllKeys | ingest.py:46-48 | A key is in the merged map exactly when one of the maps has it. |
| Ingestor.UpdateAllLastWins | ingest.py:46-48 | A key's value comes from the last map that has it. |
| Ingestor.Fields | ingest.py:36-37 | The fields of a manifest line are all non-empty. |
| Ingestor.ParseDat | ingest.py:29-40 | The line loop computes the manifest map. A missing file gives the empty map. |
| Ingestor.AddLine | ingest.py:38-39 | Setting `parts[0]` to `parts[1]` when there are two fields is the update with the line's entry. |
| Ingestor.LineMapShape | ingest.py:36-39 | A line contributes at most one entry, from a non-empty field without `þ` to another. |
| Ingestor.LineMapOfEntry | ingest.py:36-39 | A line `key þ value` yields exactly `key -> value`. |
| Ingestor.ParsedDatIgnoresHeader | ingest.py:35 | The first line is never read. |
| Ingestor.ParsedDatKeys | ingest.py:35-39 | A key is present exactly when a line after the header has it as its first field. |
| Ingestor.ParsedDatLastWins | ingest.py:35-39 | The value is the second field of the last line with that key. |
| Ingestor.LoadBatesMap | ingest.py:46-48 | The manifest loop computes the update of the manifests' maps in order. |
| Ingestor.BatesMapLastWins | ingest.py:46-48 | Across manifests, the last one that has a key decides its value. |
| Ingestor.BatesEnd | ingest.py:74 | The lookup returns the map's value, or `""` when the key is absent. |
| Ingestor.BatesStartPlain | ingest.py:73 | A filename without `.pdf` is its own first Bates number. |
| Ingestor.BatesStartOfPdf | ingest.py:73 | `stem.pdf`, where the stem has no `.pdf` of its own, gives the stem. |
| Ingestor.NewDocument | ingest.py:76-79 | The new row has the given id, the filename and the page count of the extracted texts. |
| Ingestor.InsertPages | ingest.py:82-83 | The page loop appends one row per text, numbered from 1 in extraction order, with the next ids. |
| Ingestor.IngestFile | ingest.py:54-83 | Rows are added exactly when the filename is new and the PDF opens. Otherwise nothing changes. The tables stay consistent. |
| Ingestor.IngestAll | ingest.py:53-86 | The loop leaves exactly the tables `Ingested` computes: each file in turn, in the order given (the caller sorts them by path), adds nothing when its name is present or it does not open, else its document and pages. Every PDF that opens ends up indexed. Earlier document and page rows stay in place, and the tables stay consistent. |
| Ingestor.IngestedKeepsRows | ingest.py:53-86 | The file loop only appends: earlier rows of both tables stay in place. |
| Ingestor.IngestedNames | ingest.py:53-86 | A filename is indexed afterwards exactly when it was before or some file with that name opened. |
| Ingestor.IngestedIndexes | ingest.py:53-86 | Every file that opened is indexed afterwards, and so is every filename indexed before. |
| Ingestor.IngestedNewRows | ingest.py:54-79 | Every added document row is the row of a file that opened: its name, path, page texts, the next id and its Bates range. |
| Ingestor.IngestedConsistent | ingest.py:53-86 | From consistent tables, the file loop leaves consistent tables, whatever the files. |
| Store.NewPages | ingest.py:82-83 | Page j of the new document has id base + j + 1, the document's id, number j + 1 and the j-th text. |
| Store.AppendDocumentConsistent | ingest.py:76-83 | Appending a document with a fresh filename and its numbered pages keeps the tables consistent. |
| Store.Database.constructor | ingest.py:6-27 | A new database has empty, consistent tables. |
| Store.SameLayoutConsistent | clean.py:44-48 | Rewriting page texts and nothing else keeps the tables consistent. |
| Store.SameDocumentsConsistent | clean.py:53-57 | Rewriting full texts and nothing else keeps the tables consistent. |
| Search.BuildFtsQuery | app.py:83-90 | The token loop computes the full-text query. |
| Search.TermOfShape | app.py:87-89 | A token yields a term exactly when it has a word character. The term is its word characters followed by `*`. |
| Search.FtsPartsTerms | app.py:86-89 | Every part is a well-formed prefix term. |
| Search.FtsPartsEmpty | app.py:86-90 | No term is built exactly when no token has a word character. |
| Search.FtsPartsComprehension | app.py:84-90 | The terms are the starred word characters of exactly the tokens that have any, in order. |
| Search.FtsQueryEmptyIff | app.py:83-90 | The query is empty exactly when the input has no word character. |
| Search.FtsQueryChars | app.py:83-90 | The query holds only word characters, `*` and spaces, so no FTS5 operator character gets through. |
| Search.LikeAnything | app.py:125 | A lone `%` matches every text. |
| Search.LikePercent | app.py:125 | A leading `%` lets the rest of the pattern match any suffix. |
| Search.LikeLiteral | app.py:125 | A wildcard-free prefix of a pattern matches only itself. |
| Search.LikeInOrder | app.py:120-125 | With wildcard-free tokens, `%t1%t2…%` matches exactly the texts holding the tokens in order, without overlap. |
| Search.PageMatchesInOrder | app.py:120-125 | For tokens without `%` or `_`, a page matches exactly when its lower-cased text holds the lower-cased tokens in order, without overlap. Tokens with wildcards follow `Like`. |
| Search.SnippetStart | app.py:122 | A start above 0 lies exactly 80 characters before the first case-insensitive occurrence of the first token, with no occurrence earlier. A start of 0 means the token is absent or first occurs within the first 81 characters. |
| Search.Snippet | app.py:122 | The snippet is the slice of at most 200 characters from that start. |
| Search.SnippetShowsMatch | app.py:122 | A first token of at most 120 characters that occurs appears in full in the snippet, at most 80 characters in. |
| Search.SnippetWithoutMatch | app.py:122 | Without an occurrence the snippet is the first 200 characters. |
| Search.Matching | app.py:121-125 | The fallback selects exactly the pages that join to a document and match the pattern. |
| Search.PageBeforeTotal | app.py:126 | The (document, page) order is a total preorder. |
| Search.Ranked | app.py:126-127 | One row per selected page, up to 100: exactly min(selected, 100) rows. |
| Search.Fallback | app.py:118-128 | Exactly min(matching, 100) rows, in (document, page) order. As a multiset the rows are contained in the matching pages' rows, so no row repeats more often than its page matches. When no more than 100 pages match, every one of them is there. When more match, every matching row left out (counted as a multiset) sorts after every row returned, so these are the first 100. |
| Search.RankedFromSelected | app.py:126-127 | Every row is the row of a selected page, and as a multiset the rows are contained in the selected pages' rows. |
| Search.RankedCoversSelected | app.py:126-127 | With at most 100 selected pages, all of their rows are present. |
| Search.RankedOrdered | app.py:126-127 | The rows are in (document, page) order. |
| Search.RankedFirst | app.py:126-127 | `LIMIT 100` after `ORDER BY p.doc_id, p.page_num`: every selected row left out (the multiset difference) sorts after every row returned. |
| Search.SearchBlank | app.py:94-96 | A blank query returns nothing, whatever the tables and the index hold. |
| Search.SearchUsesFts | app.py:102-116 | Full-text rows, when there are any, are the answer. |
| Search.SearchFallsBack | app.py:104-128 | A non-blank query falls back to the scan when the index query is empty, returns no rows or fails. |
| Search.SearchPunctuationOnly | app.py:102-128 | A non-blank query without a word character never reaches the index and always gets the scan. |
| Search.StrippedHasToken | app.py:128 | A non-blank query has a first token. |
| Search.ListingBeforeTotal | app.py:41 | `ORDER BY interest_score DESC, filename` is a total preorder. |
| Search.Selected | app.py:36-40 | A document is selected exactly when its score is at least the minimum and, when a type is given, its type matches. |
| Search.ListingSpec | app.py:31-44 | The listing is a permutation of the selected documents, sorted by score (highest first), then by filename. |
| Search.Ds9IdsMembers | app.py:9-12 | The ids are exactly the stripped non-blank lines, and none has surrounding whitespace. |
| Search.Ds9Matches | app.py:192 | The matches are exactly the ids that contain the query. |
| Search.Ds9SearchSpec | app.py:187-193 | A blank query finds nothing. Otherwise the result is the first min(matches, 100) ids containing the stripped, upper-cased query, in list order: a prefix of the matches of exactly that length. |
| Report.Rank | render_report.py:82-83 | Ranks run from 0 to 4. Rank 0 is exactly the severities outside critical/high/medium/low. |
| Report.Bucket | render_report.py:94 | Sort buckets run from 0 to 4. |
| Report.BucketIsReversedRank | render_report.py:82-94 | The sort bucket is 4 minus the rank, so a higher rank sorts first. |
| Report.Merged | render_report.py:72-93 | A successful merge leaves distinct keys, exactly the keys of the entries, each the lower-cased name of its entry. |
| Report.StepValid | render_report.py:74-93 | One iteration keeps the dictionary invariant. |
| Report.StepEntry | render_report.py:74-93 | One person touches only their own key. A new key gets a fresh entry with the person's name, role and severity ("low" when absent). An existing entry absorbs them. Every other key is unchanged. |
| Report.AbsorbFacts | render_report.py:79-84 | Absorbing keeps the name, unites the allegations and the sources, and leaves the higher of the two severity ranks. |
| Report.MergedErrSticks | render_report.py:84 | Once an iteration raises, the whole merge ends with that error. |
| Report.MergePeople | render_report.py:72-94 | The loop that updates entries in place computes the merge, or the `KeyError`. |
| Report.MergedKeys | render_report.py:74-78 | There is an entry for a key exactly when some person whose stripped name has at least 3 characters lower-cases to it. |
| Report.FirstAt | render_report.py:74-78 | The position of the first counted person with a key is one with that key, with none earlier; it is the length of the input when there is none. |
| Report.MergedKeyPresent | render_report.py:74-78 | There is an entry for a key exactly when a counted person with that key occurs in the input. |
| Report.StepKeys | render_report.py:78-93 | One iteration appends the person's key to the dictionary's key order exactly when the key is new. |
| Report.MergedKeyOrder | render_report.py:72-93 | The dictionary's keys are in the order in which the first person with each key appears in the input. |
| Report.MergedName | render_report.py:86-88 | The entry keeps the first-seen spelling of the name. |
| Report.MergedAccumulates | render_report.py:79-84 | The entry's allegations and sources are the unions over everyone merged under its key. Its severity has the highest rank any of them gave. |
| Report.StepKeepsEntries | render_report.py:79-85 | An entry's rank never falls, its name never changes, its lists only grow, and its role changes only when the rank strictly rises. |
| Report.MergedSucceeds | render_report.py:82-84 | For well-typed person records (see `Report.Person` under "## Left out") whose severities are all known or absent, the merge never reaches the `KeyError` of render_report.py:84: it succeeds and every entry ranks at least low. |
| Report.MissingSeverityFails | render_report.py:82-84 | A person without a severity joining an entry of unknown severity raises. |
| Report.MergedOrder | render_report.py:94 | The output is a permutation of the entries sorted critical, high, medium, low, then the rest. Within one severity the dictionary's key order is kept, which `Report.MergedKeyOrder` shows is first-appearance order. |
| Report.TryFixes | render_report.py:56-61 | The suffix loop returns the first fix that parses. |
| Report.Salvage | render_report.py:62-70 | The match loop appends exactly the matched objects that parse and have a `"name"` key, in order. |
| Report.ParseJsonLoose | render_report.py:44-70 | The method computes the fence strip, the strict parse, the fixes and the salvage. |
| Report.LooseEmpty | render_report.py:45-46 | A missing or empty answer reads as an empty list. |
| Report.UnfencedCases | render_report.py:47-49 | Unfenced text is kept whole. A fence fails exactly when no newline follows it. |
| Report.UnfencedRoundTrip | render_report.py:47-49 | A fenced block with a one-line info string reads back as exactly its body. |
| Report.FirstFixWins | render_report.py:56-61 | The chosen fix parses and every earlier one fails. No fix is chosen exactly when all fail. |
| Report.MatchesAreObjects | render_report.py:62 | Every salvaged text is `{`, at least 20 brace-free characters, `}`, and occurs in the answer. |
| Report.ObjectMatchAt | render_report.py:62 | At the opening brace of an object text in the answer, the pattern matches exactly that text. |
| Report.MatchEndsBefore | render_report.py:62 | A match that starts before a `{` ends at or before it, so matches cannot straddle an object text. |
| Report.MatchesComplete | render_report.py:62 | The scan misses nothing: every object text at or after the scan's start is among its matches. |
| Report.SalvageComplete | render_report.py:62-69 | Every object text in the answer that parses to a value with a `"name"` key is in the salvaged list. |
| Report.MatchesWhole | render_report.py:62 | An answer that is one such object is matched whole. |
| Report.KeptMembers | render_report.py:62-69 | A value is salvaged exactly when it is the parse of a matched text and has a `"name"` key. |
| Report.LooseLadder | render_report.py:50-70 | The strict parse wins when it succeeds, then the first fix that parses. Only when all of them fail is the answer salvaged object by object. |

## Left out

- Opening files is not modelled: the caller passes in a manifest's lines and a PDF's page texts. This covers PDF text extraction (`fitz`), `glob` discovery, and reading `.DAT` files and the Dataset 9 id file. `glob` discovery includes the sort of ingest.py:53: the caller passes the PDFs to `Ingestor.IngestAll` already sorted by path. That order fixes the document ids, and which of two files with the same name is indexed.
- SQLite itself, connections and commits are not modelled; the tables are in-memory sequences. So are the `ALTER TABLE` column additions and the console statistics.
- FTS5 is not modelled: tokenisation, `MATCH`, `rank` ordering and `snippet()`. The index query is a parameter, any function from a query string to rows or a failure; the model puts no bound on the number of rows it returns, since the `LIMIT 100` is part of that query.
- `json.loads` is a parameter `parse`, and the `"name" in obj` test is a parameter `hasName`.
- Character classes are ASCII. `isalpha`, `isdigit`, `\w`, `lower()` and `upper()` do not model Unicode letters, digits or case mappings. Whitespace is Python's full `str.isspace` set.
- SQLite `LIKE` case folding does not matter here, because both sides are lower-cased before the comparison.
- Search.Listing: rows with equal score and filename keep table order. SQLite leaves their order unspecified.
- Report.Person: each extracted person is taken to be a JSON object whose `name`, `role` and `severity` are strings or absent, and whose `allegations` and `sources` are lists of strings or absent. Other values make `merge_people` raise, and this is not modelled. A `null` name or a person that is not an object raises `AttributeError` (render_report.py:75). A non-list `allegations` or `sources`, or a list holding unhashable values, raises `TypeError` (render_report.py:80-81). A list or object as `severity` raises `TypeError` (render_report.py:83). Such values reach the merge when the model's answer deviates from the extraction prompt's format.
- Report.MergedAccumulates: allegations and sources are sets. The source turns them into lists in an order Python does not fix. It also keeps a first entry's list, duplicates included, until a second entry arrives.
- The `int()` parse of `min_score` and the column projection of each query are not modelled; the model takes the minimum as an integer and returns whole rows.
- Not modelled, being HTTP and I/O: the Flask routes, `send_from_directory`, `send_file`, `ds9_random`, `/api/summarize`, `/api/stats`, `/api/highlights`, `/api/doc_types` and `/api/document`.
- Not modelled: `call_gemini`, the extraction prompt and every other model call, retries and sleeps; these are network I/O.
- `render_html` is string templating and is not modelled.
- JunkPatterns.MatchAt: the contract states only that a match is non-empty, inside the text and starts on its pattern's leading literal. Where the match ends is given by the matcher's definition and is not restated.
- JunkPatterns.CopyMarkAt: as for MatchAt, only where the match lies is stated, not which characters it takes.
- JunkPatterns.MediaListAt: as for MatchAt, only where the match starts is stated, not where the lazy chain ends.
- JunkPatterns.EmailNoticeAt: as for MatchAt, only where the match starts is stated, not which alternative it takes.
- JunkPatterns.RecipientNoticeAt: as for MatchAt, only where the match starts is stated, not which alternative it takes.
- JunkPatterns.PrivilegeNoticeAt: as for MatchAt, only where the match starts is stated, not where the lazy chain ends.
- JunkPatterns.NotScannedAt: as for MatchAt, only where the match starts is stated, not the whitespace it spans.
- JunkPatterns.GrandJuryFooterAt: as for MatchAt, only where the match starts is stated, not where the lazy chain ends.
- JunkPatterns.ExhibitStampsAt: as for MatchAt, only where the match starts is stated, not how many stamps it takes.
- JunkPatterns.StampRun: only the bounds of the repetition are stated, not that it is greedy.
- JunkPatterns.ListingRep: only the bounds and the first unit are stated, not the backtracking of `\w+` inside each unit.
- JunkPatterns.Sub: only the length bound is stated; the text left after deletion is given by the definition.
- Cleaner.IndexRows: the index rebuild is stated as the rows it inserts. Dropping and recreating the virtual table is not modelled.
