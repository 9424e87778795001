# Dictanova demo scripts: a verified model of their local computations

The dictanova demo scripts post fixed JSON queries to a hosted
text-analytics API, reshape the answers with pandas and draw charts. The API
does the extraction and the aggregation. This project models what the
scripts compute locally, and proves what those computations promise:

- `Auth`: the bearer-token hook `DictanovaAPIAuth`, a class with a cached
  token. It fetches the token at most once, stamps the `Authorization`
  header (header names are case-insensitive, as in requests), and compares
  hooks by their credentials.
- `Highlight`: the negative mentions of an opinion in a review, sorted by
  offset. The product-review search splices the review into plain and
  highlighted pieces joined by `**`. The retail-feedback illustration prints
  a ±50-character snippet around the first mention, collapses whitespace
  runs, and prints at most twelve extracts for each of the top ten opinions.
- `CsatImpact`: the two-page opinion list and the reference CSAT loop. Also
  the `df_impact` table: its regular, "without", "satisfied removed" and
  "unsatisfied removed" CSAT columns and their variations.
- `Nps`: the NPS per opinion, the detailed table built from promoter,
  passive and detractor volumes, its colour rule and sort order, and the
  variations per polarity.
- `Polarity`: the opinions in both the positive and the negative answers,
  the CSAT query mutated for each opinion, the inner join of the three
  frames, and the polarity ratio with its colour.
- `Trends`: the (opinion, week) polarity table with the significance filter,
  the four-week reference window, the deviation in standard deviations, and
  the top-5 trends of weeks 18 to 22.
- `Vendors`: the null filter and the (vendor, opinion) projection, the
  per-vendor word clouds, the per-opinion normalised scores, the bar list
  (scores above 0, last 15 in ascending order) and the word cloud of scores
  above 0.
- `Brands`: the volume filter, the descending (brand, value) sort, the brand
  list and the per-brand frequency maps.
- `Timeline`: the top five opinions by volume. The polarity frame, a class,
  to which the three percentage columns are added one after the other. The
  NPS table by (opinion, month).
- `PriceImpact`: the CSAT query mutated between the three requests, the
  flattening of the dimension lists, the left joins keyed by the negative
  price answer, and the two percentage variations.
- `Grid`: the √n subplot grid shared by the vendor and brand word clouds.
- `Aggregation` and `Common`: the rows of an aggregation answer projected
  onto their dimensions, the pivot cell, Python slices, a stable sort,
  filters, and the float quotient with its NaN and infinities.

Every API answer, and the token endpoint, is a parameter of the operation
that reads it. Floats are exact `real`s. A division is a `Quotient`: finite,
`+inf`, `-inf` or `NaN`, as pandas yields for a zero denominator. The standard
deviation of a window is a parameter `std`. A pandas table is a sequence of
rows, or, for the polarity frame, a map from column names to columns.

## Model

| member | source | states |
|---|---|---|
| Auth.Request.constructor | dictanova/demo/product-reviews/demo-product-reviews-uc1.py:30-32 | a request carries the given headers |
| Auth.BearerOf | dictanova/demo/product-reviews/demo-product-reviews-uc1.py:44 | the header value is `"Bearer "` followed by the cached `access_token`; a KeyError exactly when the cached answer has none |
| Auth.DictanovaApiAuth.constructor | dictanova/demo/product-reviews/demo-product-reviews-uc1.py:16-19 | keeps id and secret; no token is cached and none has been fetched |
| Auth.DictanovaApiAuth.AttributesOf | dictanova/demo/product-reviews/demo-product-reviews-uc1.py:23-24 | a hook exposes its id and secret to `getattr` |
| Auth.DictanovaApiAuth.Eq | dictanova/demo/product-reviews/demo-product-reviews-uc1.py:21-25 | equal exactly when the other object has the same id and the same secret |
| Auth.DictanovaApiAuth.Ne | dictanova/demo/product-reviews/demo-product-reviews-uc1.py:27-28 | the exact negation of `__eq__` |
| Auth.DictanovaApiAuth.GetToken | dictanova/demo/product-reviews/demo-product-reviews-uc1.py:34-44 | fetches, and caches the answer, only when no token is cached; otherwise the cache and the fetch count stay unchanged; returns the bearer of the cached answer |
| Auth.SetHeader | dictanova/demo/product-reviews/demo-product-reviews-uc1.py:31 | after `headers["Authorization"] = v` the header holds v under that spelling, no other spelling of the same name (differing only in case) remains, and every header with another name is kept with its value |
| Auth.SetHeaderReplacesOtherCase | dictanova/demo/product-reviews/demo-product-reviews-uc1.py:31 | an existing lower-case `authorization` header is replaced, leaving the one `Authorization` header |
| Auth.DictanovaApiAuth.Call | dictanova/demo/product-reviews/demo-product-reviews-uc1.py:30-32 | sets the Authorization header to `get_token()`, replacing any header whose name differs only in case, leaves the headers with other names unchanged, and returns the same request; when `get_token` fails, no header changes |
| Auth.EqIgnoresToken | dictanova/demo/product-reviews/demo-product-reviews-uc1.py:21-28 | two hooks are equal if and only if their credentials are, whatever their tokens; `__ne__` negates `__eq__` |
| Auth.EqIsEquivalence | dictanova/demo/product-reviews/demo-product-reviews-uc1.py:21-25 | between hooks, equality is reflexive, symmetric and transitive |
| Auth.NeverEqualToForeignObject | dictanova/demo/product-reviews/demo-product-reviews-uc1.py:23-24 | an object without the two attributes is never equal to a hook |
| Auth.GetTokenTwice | dictanova/demo/product-reviews/demo-product-reviews-uc1.py:36-44 | two calls in a row fetch at most once and return the same string |
| Highlight.BeginLeIsTotalPreorder | dictanova/demo/product-reviews/demo-product-reviews-uc1.py:156 | ordering by begin offset is a total preorder |
| Highlight.HighlightsSelected | dictanova/demo/product-reviews/demo-product-reviews-uc1.py:155-156 | the highlights are exactly the enrichments of the opinion with polarity NEGATIVE, each as often as the document has it, in ascending begin order |
| Highlight.Splice | dictanova/demo/product-reviews/demo-product-reviews-uc1.py:157-163 | the loop appends text before each highlight, then the highlight, then the rest of the text |
| Highlight.PiecesLength | dictanova/demo/product-reviews/demo-product-reviews-uc1.py:157-163 | k highlights give 2k+1 pieces; the last one is the text after the last highlight |
| Highlight.PiecesAt | dictanova/demo/product-reviews/demo-product-reviews-uc1.py:160-162 | piece 2j+1 is `content[begin_j:end_j]`; piece 2j is the text between the previous highlight and highlight j |
| Highlight.PiecesFront | dictanova/demo/product-reviews/demo-product-reviews-uc1.py:159-162 | one iteration adds the text before the first highlight and the highlight; the remaining highlights start from its end |
| Highlight.NoHighlightKeepsContent | dictanova/demo/product-reviews/demo-product-reviews-uc1.py:163-165 | with no highlight, the only piece is the content unchanged |
| Highlight.PiecesRoundTrip | dictanova/demo/product-reviews/demo-product-reviews-uc1.py:157-163 | for ordered, non-overlapping, in-range spans, the pieces concatenated give back the content |
| Highlight.JoinAppend | dictanova/demo/product-reviews/demo-product-reviews-uc1.py:165 | joining two non-empty lists puts one separator between their joins |
| Highlight.HighlightIsDelimited | dictanova/demo/product-reviews/demo-product-reviews-uc1.py:165 | in the printed text every highlighted span is immediately preceded and followed by `**` |
| Highlight.JoinAround | dictanova/demo/product-reviews/demo-product-reviews-uc1.py:165 | an inner item of a join has the separator on both sides |
| Highlight.SnippetParts | dictanova/demo/retail-feedbacks/demo-retail-feedbacks-uc2.py:110 | the snippet is the 50 characters before the span, `**`, the span, `**`, and at most 50 characters after it; for a span starting in the first 50 characters of a text of 50 or more characters, the negative start leaves the prefix empty |
| Highlight.SkipSpaces | dictanova/demo/retail-feedbacks/demo-retail-feedbacks-uc2.py:111 | drops the leading whitespace run and keeps the rest |
| Highlight.Collapse | dictanova/demo/retail-feedbacks/demo-retail-feedbacks-uc2.py:111 | the result has no two whitespace characters in a row, and every whitespace character in it is a single space |
| Highlight.VisibleSkipSpaces | dictanova/demo/retail-feedbacks/demo-retail-feedbacks-uc2.py:111 | skipping whitespace keeps the other characters |
| Highlight.CollapseNoSpace | dictanova/demo/retail-feedbacks/demo-retail-feedbacks-uc2.py:111 | a text without whitespace is left unchanged |
| Highlight.CollapseRun | dictanova/demo/retail-feedbacks/demo-retail-feedbacks-uc2.py:111 | a maximal whitespace run anywhere becomes exactly one space, the text on each side collapsed on its own |
| Highlight.CollapseKeepsVisible | dictanova/demo/retail-feedbacks/demo-retail-feedbacks-uc2.py:111 | collapsing keeps every non-whitespace character, in order |
| Highlight.CollapseIdempotent | dictanova/demo/retail-feedbacks/demo-retail-feedbacks-uc2.py:111 | collapsing a collapsed text changes nothing |
| Highlight.ExtractLine | dictanova/demo/retail-feedbacks/demo-retail-feedbacks-uc2.py:105-111 | a document without a negative mention of the opinion fails `highlights[0]` with IndexError, and only then |
| Highlight.ExtractRun | dictanova/demo/retail-feedbacks/demo-retail-feedbacks-uc2.py:103-112 | at most one line per visited document, and exactly one each when no document fails |
| Highlight.PrependTwice | dictanova/demo/retail-feedbacks/demo-retail-feedbacks-uc2.py:103-111 | lines printed in two steps are the lines of both steps in order |
| Highlight.Visited | dictanova/demo/retail-feedbacks/demo-retail-feedbacks-uc2.py:103-112 | the break runs after printing: the loop visits the first 12 documents, or all of them if there are fewer |
| Highlight.PrintExtracts | dictanova/demo/retail-feedbacks/demo-retail-feedbacks-uc2.py:103-112 | the loop prints the lines of the visited documents up to the first that fails, and reports that failure |
| Highlight.RunFailsIffLineFails | dictanova/demo/retail-feedbacks/demo-retail-feedbacks-uc2.py:103-112 | a run stops if and only if one of its documents has no line |
| Highlight.ExtractsBounded | dictanova/demo/retail-feedbacks/demo-retail-feedbacks-uc2.py:103-112 | at most 12 extracts per opinion; the script stops exactly when one of the visited documents has no negative mention, and otherwise prints one line per visited document |
| Highlight.CooccurrenceLabels | dictanova/demo/retail-feedbacks/demo-retail-feedbacks-uc2.py:95 | the labels of items 1 to 19 of the answer, in order; item 0 is skipped |
| Highlight.MapPrefix | dictanova/demo/retail-feedbacks/demo-retail-feedbacks-uc2.py:81 | one result per item of the first n |
| Highlight.MapPrefixAt | dictanova/demo/retail-feedbacks/demo-retail-feedbacks-uc2.py:81 | result k is the image of item k |
| Highlight.Illustrations | dictanova/demo/retail-feedbacks/demo-retail-feedbacks-uc2.py:81-112 | one illustration for each of the first n opinions |
| Highlight.IllustrationsAt | dictanova/demo/retail-feedbacks/demo-retail-feedbacks-uc2.py:81-112 | illustration k is the one of top opinion k |
| Highlight.IllustrationsStep | dictanova/demo/retail-feedbacks/demo-retail-feedbacks-uc2.py:81-112 | one more round appends the next opinion's illustration |
| Highlight.Illustrate | dictanova/demo/retail-feedbacks/demo-retail-feedbacks-uc2.py:83-112 | one round shows the opinion's co-occurring labels and its extracts, and passes on the extracts' failure |
| Highlight.FailuresAt | dictanova/demo/retail-feedbacks/demo-retail-feedbacks-uc2.py:81-112 | the k-th recorded outcome is the error, or its absence, of the k-th top opinion's extracts |
| Highlight.IllustrateTopOpinions | dictanova/demo/retail-feedbacks/demo-retail-feedbacks-uc2.py:81-112 | only the first 10 top opinions are illustrated, in order; when nothing fails, all of them, each with its extracts printed without error; otherwise the run stops at the first opinion whose extracts fail, every earlier one having succeeded |
| CsatImpact.CollectTopOpinions | dictanova/demo/retail-feedbacks/demo-retail-feedbacks-uc1.py:54-62 | pages 1 and 2 are concatenated in page order, at most 100 items |
| CsatImpact.DistributionOf | dictanova/demo/retail-feedbacks/demo-retail-feedbacks-uc1.py:82 | the distribution has a count for exactly the ratings of the answer |
| CsatImpact.DistributionLastWins | dictanova/demo/retail-feedbacks/demo-retail-feedbacks-uc1.py:82 | a rating's count is the one of its last row |
| CsatImpact.ReferenceCsat | dictanova/demo/retail-feedbacks/demo-retail-feedbacks-uc1.py:86-90 | every error is one of the two below; succeeds exactly when ratings 1 to 5 are all present and the total is not 0, with `ref_csat` = Σ i·distr[i] / ref_total; a ZeroDivisionError exactly when rating 1 is present and the total is 0 (raised in the first round); otherwise a KeyError naming the first missing rating |
| CsatImpact.RowOf | dictanova/demo/retail-feedbacks/demo-retail-feedbacks-uc1.py:123-124 | an opinion's row holds its distribution and its total as base |
| CsatImpact.BuildImpactTable | dictanova/demo/retail-feedbacks/demo-retail-feedbacks-uc1.py:94-125 | the reference row first, then one row per opinion, in order |
| CsatImpact.Ratio | dictanova/demo/retail-feedbacks/demo-retail-feedbacks-uc1.py:133 | a quotient that times the denominator gives the numerator; missing exactly when the denominator is 0 |
| CsatImpact.ImpactTable | dictanova/demo/retail-feedbacks/demo-retail-feedbacks-uc1.py:128-153 | every row's columns are computed against the reference row |
| CsatImpact.ReferenceSumIsSumRegular | dictanova/demo/retail-feedbacks/demo-retail-feedbacks-uc1.py:86-90 | the reference loop's sum is the reference row's `sum_regular`, so its CSAT is the row's `csat_regular` |
| CsatImpact.ReferenceRowImpact | dictanova/demo/retail-feedbacks/demo-retail-feedbacks-uc1.py:133-141 | the reference row's variation is 0; its "without" base and sum are 0 and its "without" CSAT is missing |
| CsatImpact.WithoutComplementsRow | dictanova/demo/retail-feedbacks/demo-retail-feedbacks-uc1.py:138-139 | `sum_without` + row `sum_regular` = reference `sum_regular`; `base_without` + row `base` = reference `base` |
| CsatImpact.Remainder | dictanova/demo/retail-feedbacks/demo-retail-feedbacks-uc1.py:138-140 | the counts of the reference less the row's, rating by rating |
| CsatImpact.CsatWithoutIsRemainderCsat | dictanova/demo/retail-feedbacks/demo-retail-feedbacks-uc1.py:138-140 | `csat_without` is the mean rating of what remains of the reference once the row is removed |
| CsatImpact.SatisfiedAndUnsatisfiedSplit | dictanova/demo/retail-feedbacks/demo-retail-feedbacks-uc1.py:144-151 | `sum_sat` + `sum_unsat` = `sum_regular` and `vol_sat` + `vol_unsat` = the row's rated volume |
| CsatImpact.RatioBetween | dictanova/demo/retail-feedbacks/demo-retail-feedbacks-uc1.py:133 | a ratio of a sum between lo·b and hi·b over b lies between lo and hi |
| CsatImpact.CsatBetweenOneAndFive | dictanova/demo/retail-feedbacks/demo-retail-feedbacks-uc1.py:128-133 | when the base counts exactly the rated documents, `csat_regular` lies in [1, 5] |
| CsatImpact.RemovingUnsatisfiedLeavesFourToFive | dictanova/demo/retail-feedbacks/demo-retail-feedbacks-uc1.py:144-146 | `csat_rm_unsat` is the mean of the 4s and 5s, in [4, 5] |
| CsatImpact.RemovingSatisfiedLeavesOneToThree | dictanova/demo/retail-feedbacks/demo-retail-feedbacks-uc1.py:150-152 | `csat_rm_sat` is the mean of the 1s to 3s, in [1, 3] |
| CsatImpact.VariationsAgainstReference | dictanova/demo/retail-feedbacks/demo-retail-feedbacks-uc1.py:135-153 | whenever a CSAT figure of the row exists, its variation is that figure minus the reference CSAT |
| Nps.OpinionNpsRows | dictanova/demo/retail-feedbacks/demo-retail-feedbacks-uc4.py:75-77 | the opinion is dimension 0 and `var_nps` = opinion NPS − global NPS; KeyError on `dimensions` exactly when the answer is empty, IndexError exactly when a row has no dimension |
| Nps.SortedByValueAscending | dictanova/demo/retail-feedbacks/demo-retail-feedbacks-uc4.py:78 | the sorted table is a permutation of the rows, by ascending NPS |
| Nps.Percent | dictanova/demo/retail-feedbacks/demo-retail-feedbacks-uc4.py:130-131 | a percentage of the total, missing exactly when the total is 0 |
| Nps.PercentOfTotal | dictanova/demo/retail-feedbacks/demo-retail-feedbacks-uc4.py:130-131 | a percentage times the total is 100 times the part |
| Nps.VarColor | dictanova/demo/retail-feedbacks/demo-retail-feedbacks-uc4.py:134 | `"seagreen"` exactly when `var_nps` ≥ 0, otherwise `"orangered"` (also for NaN) |
| Nps.MissingGroup | dictanova/demo/retail-feedbacks/demo-retail-feedbacks-uc4.py:127-129 | none exactly when the pivot has the promoters, detractors and passives columns; otherwise a group that is absent |
| Nps.DetailRows | dictanova/demo/retail-feedbacks/demo-retail-feedbacks-uc4.py:127-133 | row k is the detailed row of the k-th opinion of the index it is given |
| Nps.NpsDetailsFails | dictanova/demo/retail-feedbacks/demo-retail-feedbacks-uc4.py:124-129 | the table fails with KeyError on `dimensions` when the answer is empty, with IndexError exactly when a row has fewer than two dimensions, and otherwise with KeyError exactly when an NPS group is absent |
| Nps.Opinions | dictanova/demo/retail-feedbacks/demo-retail-feedbacks-uc4.py:127 | the opinion of each row, in order |
| Nps.DetailRowsIndex | dictanova/demo/retail-feedbacks/demo-retail-feedbacks-uc4.py:125-127 | the detailed table has one row for each opinion of the answer, each opinion once |
| Nps.DetailRowsVolumes | dictanova/demo/retail-feedbacks/demo-retail-feedbacks-uc4.py:127-133 | a row's three volumes are its pivot cells, and its other columns are derived from them |
| Nps.DetailMeaning | dictanova/demo/retail-feedbacks/demo-retail-feedbacks-uc4.py:129-134 | `total` = promoters + detractors + passives, `nps` = %promoters − %detractors, `var_nps` = nps − global NPS, and the colour follows the variation |
| Nps.NpsBetweenBounds | dictanova/demo/retail-feedbacks/demo-retail-feedbacks-uc4.py:129-132 | with non-negative volumes and a positive total, the NPS lies in [−100, 100] |
| Nps.DetailsNpsBounded | dictanova/demo/retail-feedbacks/demo-retail-feedbacks-uc4.py:127-132 | the volumes are means of non-negative volumes or 0, so every NPS is missing or in [−100, 100] |
| Nps.SortedByNpsAscending | dictanova/demo/retail-feedbacks/demo-retail-feedbacks-uc4.py:135 | the sorted table is a permutation of the rows, by ascending NPS, with missing NPS last |
| Nps.OpinionNpsOf | dictanova/demo/retail-feedbacks/demo-retail-feedbacks-uc4.py:196 | the opinion's NPS in the detailed table; missing when the opinion has no row |
| Nps.MissingPolarity | dictanova/demo/retail-feedbacks/demo-retail-feedbacks-uc4.py:191-195 | none exactly when the pivot has the POSITIVE, NEGATIVE and NEUTRAL columns; otherwise a polarity that is absent |
| Nps.PolarityVariations | dictanova/demo/retail-feedbacks/demo-retail-feedbacks-uc4.py:192-199 | each `var_npsg_*` is the polarity NPS minus the global NPS, and each `var_npsl_*` is the polarity NPS minus the opinion's NPS |
| Nps.OpinionNpsOfUnique | dictanova/demo/retail-feedbacks/demo-retail-feedbacks-uc4.py:196 | with each opinion once, the reference NPS is the one of that opinion's row |
| Nps.PolarityNpsRowsFails | dictanova/demo/retail-feedbacks/demo-retail-feedbacks-uc4.py:188-195 | the polarity table fails with KeyError on `dimensions` exactly when the answer is empty, with IndexError exactly when a row has fewer than two dimensions, and otherwise with KeyError exactly when a polarity column is absent, naming the first one read |
| Nps.PolarityNpsRowsMeaning | dictanova/demo/retail-feedbacks/demo-retail-feedbacks-uc4.py:188-199 | row k belongs to the k-th label of the pivot index, which lists every opinion of the answer once; a polarity cell is the mean NPS of that (opinion, polarity), NaN without such a row; `ref_nps_opinion` is the opinion's NPS from the detailed table, and the six variations are taken against the global NPS and that reference |
| Polarity.Occurrences | dictanova/demo/product-reviews/demo-product-reviews-uc4.py:67-68 | the map's keys are exactly the ids of the answer |
| Polarity.Ids | dictanova/demo/product-reviews/demo-product-reviews-uc4.py:67 | the ids of the items, in order |
| Polarity.TopPolarizedSelection | dictanova/demo/product-reviews/demo-product-reviews-uc4.py:67-69 | the selection is exactly the ids present in both answers, each once |
| Polarity.OrderOfSelected | dictanova/demo/product-reviews/demo-product-reviews-uc4.py:69 | the selection follows the order in which ids first appear in the positive answer |
| Polarity.CsatQuery.constructor | dictanova/demo/product-reviews/demo-product-reviews-uc4.py:74-91 | the CSAT query on `metadata.note_moyenne`: the subcategory criterion, then a TERMS criterion with no value |
| Polarity.CsatQuery.SetOpinion | dictanova/demo/product-reviews/demo-product-reviews-uc4.py:95 | only criterion 1's value changes; criterion 0 stays the subcategory |
| Polarity.CollectCsat | dictanova/demo/product-reviews/demo-product-reviews-uc4.py:92-104 | `csat` has exactly one entry per selected opinion: the answer to the query rewritten for it |
| Polarity.PolarityRatio | dictanova/demo/product-reviews/demo-product-reviews-uc4.py:115-116 | missing exactly when there is no polarised mention |
| Polarity.ColorOf | dictanova/demo/product-reviews/demo-product-reviews-uc4.py:125 | `"green"` exactly when the ratio is ≥ 0, otherwise `"orangered"` (also for NaN) |
| Polarity.Join | dictanova/demo/product-reviews/demo-product-reviews-uc4.py:108-112 | the inner join has at most one row per opinion of the order it follows; which rows, with which values, is stated by `JoinKeepsCommonKeys` |
| Polarity.JoinKeepsCommonKeys | dictanova/demo/product-reviews/demo-product-reviews-uc4.py:108-113 | the join keeps exactly the opinions present in `csat`, `top_pos` and `top_neg`, each with its three values |
| Polarity.PolarityTableFails | dictanova/demo/product-reviews/demo-product-reviews-uc4.py:108-113 | the table fails with ValueError exactly when `csat`, `top_pos` or `top_neg` is empty: a frame without columns leaves fewer than the three names `df.columns` assigns |
| Polarity.EverySelectedOpinionJoined | dictanova/demo/product-reviews/demo-product-reviews-uc4.py:92-113 | once the loop has measured every selected opinion, the table is built whenever some opinion is selected, and then has a row for each selected opinion and for nothing else; when `csat` holds exactly the selected opinions, as the loop leaves it, the script fails with ValueError exactly when no opinion is selected |
| Polarity.PolarityRowMeaning | dictanova/demo/product-reviews/demo-product-reviews-uc4.py:115-125 | `polarity_vol` = vol_pos + vol_neg; the ratio lies in [−1, 1] and is ≥ 0 exactly when vol_pos ≥ vol_neg; the colour is green exactly then |
| Polarity.NoMentionIsOrangeRed | dictanova/demo/product-reviews/demo-product-reviews-uc4.py:116-125 | without polarised mentions the ratio is NaN and the colour is orangered |
| Trends.Rows | dictanova/demo/retail-feedbacks/demo-retail-feedbacks-uc3.py:100-109 | row k holds the counts of the k-th (opinion, week) pair of the index it is given |
| Trends.MissingColumn | dictanova/demo/retail-feedbacks/demo-retail-feedbacks-uc3.py:100-109 | none exactly when the answer has all three polarities; otherwise the first renamed column that is absent |
| Trends.TrendTableFails | dictanova/demo/retail-feedbacks/demo-retail-feedbacks-uc3.py:95-110 | KeyError on `dimensions` when the answer is empty; IndexError exactly when a row has fewer than three dimensions; success exactly when the answer mentions each polarity; otherwise a KeyError on `pos`, `neg` or `neu` |
| Trends.MentionsProjected | dictanova/demo/retail-feedbacks/demo-retail-feedbacks-uc3.py:98 | the projected rows have a polarity exactly when the answer mentions it in dimension 2 |
| Trends.TrendTableRows | dictanova/demo/retail-feedbacks/demo-retail-feedbacks-uc3.py:96-110 | every kept row has `all` = pos + neg + neu > 10; its counts are the zero-filled pivot cells of its (week, opinion); and a row of the answer has that week and that opinion |
| Trends.KeptRowMeaning | dictanova/demo/retail-feedbacks/demo-retail-feedbacks-uc3.py:100-110 | a significant row of an indexed pair has the zero-filled cells and the total of that pair |
| Trends.TrendTableComplete | dictanova/demo/retail-feedbacks/demo-retail-feedbacks-uc3.py:109-110 | every (opinion, week) of the answer whose total exceeds 10 is kept |
| Trends.PairFromIndex | dictanova/demo/retail-feedbacks/demo-retail-feedbacks-uc3.py:100 | every pair of the pivot's index comes from a row of the answer |
| Trends.PairInIndex | dictanova/demo/retail-feedbacks/demo-retail-feedbacks-uc3.py:100 | every row's pair is in the pivot's index |
| Trends.TrendTableUniquePairs | dictanova/demo/retail-feedbacks/demo-retail-feedbacks-uc3.py:100-110 | no (opinion, week) pair appears twice in the table |
| Trends.KeptRowsSound | dictanova/demo/retail-feedbacks/demo-retail-feedbacks-uc3.py:110 | every kept row is the significant row of one of the pairs |
| Trends.KeptRowsComplete | dictanova/demo/retail-feedbacks/demo-retail-feedbacks-uc3.py:110 | every pair whose total exceeds 10 has its row kept |
| Trends.KeptRowsUnique | dictanova/demo/retail-feedbacks/demo-retail-feedbacks-uc3.py:110 | over distinct pairs, the kept rows have distinct pairs |
| Trends.RowsNoDuplicates | dictanova/demo/retail-feedbacks/demo-retail-feedbacks-uc3.py:100-109 | distinct pairs give rows of distinct pairs |
| Trends.Window | dictanova/demo/retail-feedbacks/demo-retail-feedbacks-uc3.py:120 | the window has four labels |
| Trends.WeekLabelInjective | dictanova/demo/retail-feedbacks/demo-retail-feedbacks-uc3.py:120 | different weeks have different `"2015-W%d"` labels |
| Trends.WindowIsFourEarlierWeeks | dictanova/demo/retail-feedbacks/demo-retail-feedbacks-uc3.py:120 | the window of week w is exactly the labels of weeks w−4 to w−1, in order |
| Trends.WindowExcludesCurrentWeek | dictanova/demo/retail-feedbacks/demo-retail-feedbacks-uc3.py:120-126 | each label of the window appears once, and the analysed week is not in its own window |
| Trends.WindowValues | dictanova/demo/retail-feedbacks/demo-retail-feedbacks-uc3.py:123-124 | the values of the column for the opinion's rows in the window's weeks |
| Trends.TrendMeansMoreThanOneStd | dictanova/demo/retail-feedbacks/demo-retail-feedbacks-uc3.py:123-131 | a row exceeds 1 exactly when the opinion has window rows with a standard deviation s ≥ 0 and its count is above the window mean + s (any count above the mean when s = 0) |
| Trends.DescendingIsTotalPreorder | dictanova/demo/retail-feedbacks/demo-retail-feedbacks-uc3.py:130-131 | descending order by deviation, NaN last, is a total preorder |
| Trends.Scored | dictanova/demo/retail-feedbacks/demo-retail-feedbacks-uc3.py:126 | exactly the rows of the analysed week, each with its deviation |
| Trends.TopTrendsSelection | dictanova/demo/retail-feedbacks/demo-retail-feedbacks-uc3.py:130-131 | at most five trends, each deviating by more than 1, in descending order; a trend left out deviates no more than the fifth |
| Trends.DisplayTrends | dictanova/demo/retail-feedbacks/demo-retail-feedbacks-uc3.py:118-140 | one report for each week 18 to 22, in order, with the top trends of every requested column |
| Trends.WeekLists | dictanova/demo/retail-feedbacks/demo-retail-feedbacks-uc3.py:130-140 | the top trends of each requested column for one week |
| Vendors.VendorRowsFail | dictanova/demo/retail-feedbacks/demo-retail-feedbacks-uc5.py:81-84 | KeyError on `value` exactly when the answer is empty; IndexError exactly when a row of positive value has fewer than two dimensions |
| Vendors.VendorRowsMeaning | dictanova/demo/retail-feedbacks/demo-retail-feedbacks-uc5.py:82-84 | rows with value ≤ 0 are dropped; each kept row becomes (vendor, opinion) = dimensions 0 and 1 with its value; every row of positive value is kept |
| Vendors.VendorListMeaning | dictanova/demo/retail-feedbacks/demo-retail-feedbacks-uc5.py:88 | every vendor of the rows is listed once, in order of first appearance |
| Vendors.VendorPanels | dictanova/demo/retail-feedbacks/demo-retail-feedbacks-uc5.py:88-107 | one cell per vendor, every cell inside a grid of ⌊√n⌋ columns and enough rows, no two vendors in the same cell (the corrected grid, see Findings) |
| Vendors.Frequencies | dictanova/demo/retail-feedbacks/demo-retail-feedbacks-uc5.py:95 | the cloud's words are exactly the vendor's opinions, each with the value of one of its rows |
| Vendors.FrequenciesLastWins | dictanova/demo/retail-feedbacks/demo-retail-feedbacks-uc5.py:95 | an opinion in several of the vendor's rows gets the value of the last one |
| Vendors.FrequenciesPositive | dictanova/demo/retail-feedbacks/demo-retail-feedbacks-uc5.py:82-95 | after the null filter every frequency is positive |
| Vendors.ScoreRows | dictanova/demo/retail-feedbacks/demo-retail-feedbacks-uc5.py:137-144 | the score table is built from the filtered rows; ValueError exactly when an (opinion, vendor) pair occurs twice |
| Vendors.OpinionValues | dictanova/demo/retail-feedbacks/demo-retail-feedbacks-uc5.py:143 | the values of the opinion's rows, one per vendor mentioning it |
| Vendors.ScoreAboveZero | dictanova/demo/retail-feedbacks/demo-retail-feedbacks-uc5.py:143 | a row scores above 0 exactly when the standard deviation is defined and its value is above its opinion's mean |
| Vendors.CentredScores | dictanova/demo/retail-feedbacks/demo-retail-feedbacks-uc5.py:143 | the centred values of an opinion add up to 0 |
| Vendors.FindRow | dictanova/demo/retail-feedbacks/demo-retail-feedbacks-uc5.py:144 | the row of (vendor, opinion), or none exactly when there is no such row |
| Vendors.ScoreCellOfRow | dictanova/demo/retail-feedbacks/demo-retail-feedbacks-uc5.py:143-145 | with each pair once, the unstacked cell of a row's pair is that row's score |
| Vendors.VendorColumn | dictanova/demo/retail-feedbacks/demo-retail-feedbacks-uc5.py:148-151 | the column holds, for each opinion of the index, that opinion's cell for the vendor, and nothing else |
| Vendors.BarListSelection | dictanova/demo/retail-feedbacks/demo-retail-feedbacks-uc5.py:151-153 | at most 15 bars, in ascending order, each an opinion scoring above 0 with its cell; an opinion above 0 that is left out scores no more than the first bar |
| Vendors.ColumnSelection | dictanova/demo/retail-feedbacks/demo-retail-feedbacks-uc5.py:151-153 | the same four facts for any column with one score per opinion |
| Vendors.WordCloudScores | dictanova/demo/retail-feedbacks/demo-retail-feedbacks-uc5.py:171 | the cloud holds exactly the opinions scoring above 0, with their scores |
| Vendors.WordCloudIsAboveMean | dictanova/demo/retail-feedbacks/demo-retail-feedbacks-uc5.py:143-171 | every word of the cloud is an opinion of a row of the vendor whose value is above the opinion's mean |
| Vendors.CloudWordRow | dictanova/demo/retail-feedbacks/demo-retail-feedbacks-uc5.py:144-171 | the row behind a cloud word is the vendor's row for it, and that row scores above 0 |
| Brands.StrLtIrreflexive | dictanova/demo/product-reviews/demo-product-reviews-uc5.py:90 | no brand sorts before itself |
| Brands.StrLtTransitive | dictanova/demo/product-reviews/demo-product-reviews-uc5.py:90 | string order is transitive |
| Brands.StrLtTrichotomy | dictanova/demo/product-reviews/demo-product-reviews-uc5.py:90 | two different strings are ordered one way or the other |
| Brands.StrLtIsStrictTotalOrder | dictanova/demo/product-reviews/demo-product-reviews-uc5.py:90 | Python's string order is a strict total order |
| Brands.RowsOf | dictanova/demo/product-reviews/demo-product-reviews-uc5.py:87-89 | brand and opinion are dimensions 0 and 1; value and volume are kept; the dimensions are dropped |
| Brands.BrandOrderIsTotalPreorder | dictanova/demo/product-reviews/demo-product-reviews-uc5.py:90 | descending (brand, value) order is a total preorder |
| Brands.BrandTableFails | dictanova/demo/product-reviews/demo-product-reviews-uc5.py:85-90 | KeyError on `volume` exactly when the answer is empty; IndexError exactly when a row of positive volume has fewer than two dimensions |
| Brands.BrandTableSorted | dictanova/demo/product-reviews/demo-product-reviews-uc5.py:90 | rows are ordered by brand descending and, within a brand, by value descending |
| Brands.BrandOrderMeans | dictanova/demo/product-reviews/demo-product-reviews-uc5.py:90 | a row allowed before another never has the smaller brand, nor, for the same brand, the smaller value |
| Brands.BrandTableRowsFromAnswer | dictanova/demo/product-reviews/demo-product-reviews-uc5.py:86-89 | every table row comes from a row of positive volume |
| Brands.BrandTableKeepsAnswer | dictanova/demo/product-reviews/demo-product-reviews-uc5.py:86-90 | the table is a permutation of the projected rows of positive volume; every such row is in it |
| Brands.KeptRowInTable | dictanova/demo/product-reviews/demo-product-reviews-uc5.py:86-90 | a row of positive volume is in the table |
| Brands.BrandColumn | dictanova/demo/product-reviews/demo-product-reviews-uc5.py:100 | the brand of every row, in order |
| Brands.BrandListDescending | dictanova/demo/product-reviews/demo-product-reviews-uc5.py:100 | over the sorted table the brands are listed once each, every brand of the table, in descending order |
| Brands.BrandPanels | dictanova/demo/product-reviews/demo-product-reviews-uc5.py:100-122 | one cell per brand, every cell inside a grid of ⌊√n⌋ columns and enough rows, no two brands in the same cell (the corrected grid, see Findings) |
| Brands.BrandFrequencies | dictanova/demo/product-reviews/demo-product-reviews-uc5.py:110 | the words are exactly the brand's opinions, each with the volume of one of the brand's rows |
| Brands.BrandFrequenciesExact | dictanova/demo/product-reviews/demo-product-reviews-uc5.py:86-110 | with each (brand, opinion) once, each opinion of the brand gets its own row's volume, which is positive |
| Timeline.Totals | dictanova/demo/retail-feedbacks/demo-retail-feedbacks-uc6.py:97 | one total per opinion, in order |
| Timeline.Names | dictanova/demo/retail-feedbacks/demo-retail-feedbacks-uc6.py:97 | the opinion of each total, in order |
| Timeline.TopOfTotals | dictanova/demo/retail-feedbacks/demo-retail-feedbacks-uc6.py:97 | at most five totals, by decreasing volume, each an opinion with its own total; an opinion left out has a total no larger than the fifth |
| Timeline.LeftOutOfTop | dictanova/demo/retail-feedbacks/demo-retail-feedbacks-uc6.py:97 | an opinion missing from the top five has a total no larger than the fifth |
| Timeline.TopOpinionsSelection | dictanova/demo/retail-feedbacks/demo-retail-feedbacks-uc6.py:89-97 | the plotted opinions are at most five opinions of the answer, by decreasing zero-filled volume over the months; one left out has no larger volume than the fifth |
| Timeline.TopOpinionsMeaning | dictanova/demo/retail-feedbacks/demo-retail-feedbacks-uc6.py:88-97 | the top opinions fail with KeyError on `dimensions` exactly when the answer is empty and with IndexError exactly when a row has fewer than two dimensions; otherwise they are at most five opinions of the answer (dimension 1), by decreasing total volume over the months, and one left out has no larger total than the fifth |
| Timeline.Plus | dictanova/demo/retail-feedbacks/demo-retail-feedbacks-uc6.py:147-149 | the row sum's step skips NaN cells, adds finite ones, and is NaN only for opposite infinities |
| Timeline.SumSkipNaN | dictanova/demo/retail-feedbacks/demo-retail-feedbacks-uc6.py:147-149 | the sum of finite or NaN cells is finite |
| Timeline.PercentOf | dictanova/demo/retail-feedbacks/demo-retail-feedbacks-uc6.py:147-149 | `100. * cell / den`: NaN on a NaN operand; for a finite non-zero denominator, times the denominator it is 100 times the cell; 0 over an infinity |
| Timeline.PercentColumn | dictanova/demo/retail-feedbacks/demo-retail-feedbacks-uc6.py:147-149 | the percentage of each row's cell over that row's denominator |
| Timeline.RowOf | dictanova/demo/retail-feedbacks/demo-retail-feedbacks-uc6.py:147-149 | row i read across the columns in order |
| Timeline.RowSumsOf | dictanova/demo/retail-feedbacks/demo-retail-feedbacks-uc6.py:147-149 | `df.sum(axis="columns")`: each row's cells added, NaN skipped |
| Timeline.AppendColumnSums | dictanova/demo/retail-feedbacks/demo-retail-feedbacks-uc6.py:147-149 | adding a column adds its cell to every row sum |
| Timeline.PolarityCell | dictanova/demo/retail-feedbacks/demo-retail-feedbacks-uc6.py:146 | the pivot cell is a volume, and NaN exactly when no row has that (month, opinion, polarity) |
| Timeline.Polarities | dictanova/demo/retail-feedbacks/demo-retail-feedbacks-uc6.py:146 | the pivot's columns are exactly the polarities of the answer |
| Timeline.PolarityData | dictanova/demo/retail-feedbacks/demo-retail-feedbacks-uc6.py:146 | every column holds the pivot cell of each (opinion, month) of the index |
| Timeline.PolarityFrame.constructor | dictanova/demo/retail-feedbacks/demo-retail-feedbacks-uc6.py:142-146 | the frame indexed by (opinion, month) with one column per polarity, filled with the pivot cells |
| Timeline.PolarityFrame.RowSums | dictanova/demo/retail-feedbacks/demo-retail-feedbacks-uc6.py:147-149 | one sum per row of the frame over its current columns |
| Timeline.PolarityFrame.AddRatioColumn | dictanova/demo/retail-feedbacks/demo-retail-feedbacks-uc6.py:147-149 | KeyError when the source column is absent, with the frame unchanged; otherwise the new column is appended with the percentages, and the other columns stay unchanged |
| Timeline.PolarityFrame.AddPercentColumn | dictanova/demo/retail-feedbacks/demo-retail-feedbacks-uc6.py:147-149 | the same, over the row sums of the frame as it is before the column is added |
| Timeline.PolarityFrame.AddPercentages | dictanova/demo/retail-feedbacks/demo-retail-feedbacks-uc6.py:147-149 | as written: POS_PERC over the row sums, then NEG_PERC over the row sums including POS_PERC, then NEU_PERC over the row sums including both; a KeyError stops at the first missing polarity |
| Timeline.PolarityFrame.AddSharePercentages | dictanova/demo/retail-feedbacks/demo-retail-feedbacks-uc6.py:147-149 | corrected: the three columns over the same row sums of the three polarities; a KeyError exactly when a polarity is missing |
| Timeline.PivotRowSumsFinite | dictanova/demo/retail-feedbacks/demo-retail-feedbacks-uc6.py:146-147 | the pivot's cells are volumes or NaN, so its row sums are finite |
| Timeline.AsWrittenPositiveShare | dictanova/demo/retail-feedbacks/demo-retail-feedbacks-uc6.py:147 | `POS_PERC` = 100·POSITIVE/(POSITIVE + NEGATIVE + NEUTRAL) |
| Timeline.AsWrittenValues | dictanova/demo/retail-feedbacks/demo-retail-feedbacks-uc6.py:147-149 | the as-written columns are 100·p/t, 100·n/(t + POS_PERC) and 100·u/(t + POS_PERC + NEG_PERC) |
| Timeline.Percent | dictanova/demo/retail-feedbacks/demo-retail-feedbacks-uc6.py:147-149 | 100·x/t for t > 0: times t it gives 100·x, and it is not negative when x is not |
| Timeline.AsWrittenPercentagesUnderstate | dictanova/demo/retail-feedbacks/demo-retail-feedbacks-uc6.py:148-149 | with a positive volume and some negative or neutral volume, the three as-written percentages add up to less than 100 |
| Timeline.SharesOfTotal | dictanova/demo/retail-feedbacks/demo-retail-feedbacks-uc6.py:147-149 | three shares of the same total add up to 100 |
| Timeline.AsWrittenPercentagesCounterexample | dictanova/demo/retail-feedbacks/demo-retail-feedbacks-uc6.py:147-149 | positive 1, negative 1 and neutral 0 give POS_PERC 50, NEG_PERC 100/52 and NEU_PERC 0, not 50, 50 and 0 |
| Timeline.RowSumOfOneZeroOne | dictanova/demo/retail-feedbacks/demo-retail-feedbacks-uc6.py:147 | the row sum of volumes 1, 0 and 1 is 2 |
| Timeline.SharePercentagesSumTo100 | dictanova/demo/retail-feedbacks/demo-retail-feedbacks-uc6.py:147-149 | the corrected percentages each lie in [0, 100] and add up to 100 |
| Timeline.ShareAtMost100 | dictanova/demo/retail-feedbacks/demo-retail-feedbacks-uc6.py:147-149 | a part of a total is between 0 and 100 percent of it |
| Timeline.NpsRows | dictanova/demo/retail-feedbacks/demo-retail-feedbacks-uc6.py:206-211 | one row per answer row, indexed by (opinion, month) = dimensions 1 and 0, with its value as `NPS`, no dimensions |
| Timeline.NpsTableRows | dictanova/demo/retail-feedbacks/demo-retail-feedbacks-uc6.py:206-211 | KeyError on `dimensions` exactly when the answer is empty; IndexError exactly when a row has fewer than two dimensions; otherwise one row per answer row |
| PriceImpact.PriceQuery.constructor | dictanova/demo/product-reviews/demo-product-reviews-uc2.py:54-63 | the CSAT query per subcategory, with no `"query"` entry |
| PriceImpact.PriceQuery.SetPriceFilter | dictanova/demo/product-reviews/demo-product-reviews-uc2.py:73-89 | the `"query"` entry is added or replaced, and type, field and dimensions stay unchanged |
| PriceImpact.RequestAll | dictanova/demo/product-reviews/demo-product-reviews-uc2.py:54-94 | the three requests are the reference query, then with the negative price filter, then with the positive one |
| PriceImpact.Flatten | dictanova/demo/product-reviews/demo-product-reviews-uc2.py:104-105 | each row is indexed by its first dimension; KeyError on `dimensions` exactly when the answer is empty, IndexError exactly when a row has no dimension |
| PriceImpact.FlattenFrames | dictanova/demo/product-reviews/demo-product-reviews-uc2.py:103-105 | every frame is flattened in turn; the run fails exactly when some frame fails, with the error of the first such frame |
| PriceImpact.MatchesOf | dictanova/demo/product-reviews/demo-product-reviews-uc2.py:107-109 | the measures of exactly the right rows with the key |
| PriceImpact.JoinedRows | dictanova/demo/product-reviews/demo-product-reviews-uc2.py:107-109 | a left row gives at least one joined row: one per match, or one with missing right columns |
| PriceImpact.LeftJoinRows | dictanova/demo/product-reviews/demo-product-reviews-uc2.py:107-109 | every joined row extends a left row with right columns of the same key, or with none when no right row has the key |
| PriceImpact.Lookup | dictanova/demo/product-reviews/demo-product-reviews-uc2.py:107-109 | the measures of a row with the key; none exactly when there is no such row |
| PriceImpact.UniqueMatch | dictanova/demo/product-reviews/demo-product-reviews-uc2.py:107-109 | over unique right keys, a key's matches are its looked-up measures |
| PriceImpact.UniqueMatchTwo | dictanova/demo/product-reviews/demo-product-reviews-uc2.py:107-109 | over unique right keys, a key matches at most one row |
| PriceImpact.JoinedRowsUnique | dictanova/demo/product-reviews/demo-product-reviews-uc2.py:107-109 | over unique right keys, a left row gives exactly one joined row |
| PriceImpact.WithLookup | dictanova/demo/product-reviews/demo-product-reviews-uc2.py:107-109 | each left row, in order, with the right measures of its key |
| PriceImpact.LeftJoinUnique | dictanova/demo/product-reviews/demo-product-reviews-uc2.py:107-109 | over unique right keys, the join keeps the left rows one for one |
| PriceImpact.Pairs | dictanova/demo/product-reviews/demo-product-reviews-uc2.py:105 | each row as (index, columns) |
| PriceImpact.MergeKeyedByPriceneg | dictanova/demo/product-reviews/demo-product-reviews-uc2.py:107-109 | the merged table has one row per `priceneg` row, in order, with the `_pricepos` and reference columns of its key |
| PriceImpact.Impact | dictanova/demo/product-reviews/demo-product-reviews-uc2.py:115-117 | one printed row per merged row, in order and with its key |
| PriceImpact.VariationZero | dictanova/demo/product-reviews/demo-product-reviews-uc2.py:115-116 | NaN when either CSAT is missing; over a non-zero reference, 0 exactly when the filtered CSAT equals it; over a zero reference, an infinity or NaN |
| PriceImpact.VariationSign | dictanova/demo/product-reviews/demo-product-reviews-uc2.py:115-116 | over a positive reference, the variation is finite, has the sign of filtered − reference, and is that difference in percent of the reference |
| Grid.IsqrtFrom | dictanova/demo/retail-feedbacks/demo-retail-feedbacks-uc5.py:89-90 | the integer square root, found upwards |
| Grid.Isqrt | dictanova/demo/retail-feedbacks/demo-retail-feedbacks-uc5.py:90 | the largest k with k² ≤ n |
| Grid.Cols | dictanova/demo/retail-feedbacks/demo-retail-feedbacks-uc5.py:90 | `col` = ⌊√n⌋, positive for n > 0 |
| Grid.Rows | dictanova/demo/retail-feedbacks/demo-retail-feedbacks-uc5.py:89 | `row` = ⌈√n⌉ |
| Grid.Cell | dictanova/demo/retail-feedbacks/demo-retail-feedbacks-uc5.py:103-104 | panel i goes to (i div col, i mod col), with the column below `col` |
| Grid.CellInjective | dictanova/demo/retail-feedbacks/demo-retail-feedbacks-uc5.py:103-104 | distinct panels go to distinct cells |
| Grid.GridTooSmall | dictanova/demo/retail-feedbacks/demo-retail-feedbacks-uc5.py:89-91 | the grid has fewer cells than panels exactly when k² + k < n for k = ⌊√n⌋ |
| Grid.LastPanelOffGrid | dictanova/demo/retail-feedbacks/demo-retail-feedbacks-uc5.py:89-105 | when the grid is too small, the last panel's row is past the last row |
| Grid.EveryPanelOnGrid | dictanova/demo/retail-feedbacks/demo-retail-feedbacks-uc5.py:89-105 | when the grid is large enough, every panel's row is inside it |
| Grid.Layout | dictanova/demo/retail-feedbacks/demo-retail-feedbacks-uc5.py:89-105 | the panel loop as written fails only with IndexError |
| Grid.LayoutSucceeds | dictanova/demo/retail-feedbacks/demo-retail-feedbacks-uc5.py:89-105 | the loop as written completes exactly when rows·cols ≥ n, and then places every panel in its own cell inside the grid |
| Grid.SevenPanelsOverflow | dictanova/demo/retail-feedbacks/demo-retail-feedbacks-uc5.py:89-105 | seven vendors give a 3×2 grid, panel 6 is sent to row 3, and the loop fails with IndexError |
| Grid.FittedRows | dictanova/demo/retail-feedbacks/demo-retail-feedbacks-uc5.py:89-91 | corrected row count: `col` columns of that many rows hold every panel |
| Grid.FittedGridHoldsEveryPanel | dictanova/demo/retail-feedbacks/demo-retail-feedbacks-uc5.py:103-104 | with the corrected row count every panel's row is inside the grid |
| Grid.FittedRowsAtMostOneMore | dictanova/demo/retail-feedbacks/demo-retail-feedbacks-uc5.py:89 | the corrected grid is at most one row taller than ⌈√n⌉, and no taller when n is a perfect square |
| Grid.FittedLayout | dictanova/demo/retail-feedbacks/demo-retail-feedbacks-uc5.py:93-107 | every panel gets its own cell inside the corrected grid, in row-major order |
| Aggregation.ProjectAnswer | dictanova/demo/retail-feedbacks/demo-retail-feedbacks-uc4.py:75-76 | KeyError on `dimensions` exactly when the answer is empty; otherwise success exactly when every row has n dimensions, and IndexError when one has fewer |
| Aggregation.Project | dictanova/demo/retail-feedbacks/demo-retail-feedbacks-uc5.py:83-84 | every row projected onto its first n dimensions, in order; IndexError exactly when a row has fewer |
| Aggregation.Mean | dictanova/demo/retail-feedbacks/demo-retail-feedbacks-uc5.py:143 | the mean times the count is the sum |
| Aggregation.PivotCell | dictanova/demo/retail-feedbacks/demo-retail-feedbacks-uc4.py:127 | missing exactly when no row has the keys |
| Aggregation.FilledCell | dictanova/demo/retail-feedbacks/demo-retail-feedbacks-uc4.py:127-128 | a missing combination counts as 0 after `fillna(0)` |
| Aggregation.Column | dictanova/demo/retail-feedbacks/demo-retail-feedbacks-uc4.py:125-126 | key k of every row, in order |
| Aggregation.PivotIndex | dictanova/demo/retail-feedbacks/demo-retail-feedbacks-uc4.py:127 | the pivot's rows are exactly the values of key 0, each once |
| Aggregation.PairIndex | dictanova/demo/retail-feedbacks/demo-retail-feedbacks-uc3.py:100 | the index holds exactly the (opinion, week) pairs of the rows, each once |
| Aggregation.FilledCellNonNegative | dictanova/demo/retail-feedbacks/demo-retail-feedbacks-uc4.py:127-128 | a mean of non-negative measures, or 0, is non-negative |
| Aggregation.SumNonNegative | dictanova/demo/retail-feedbacks/demo-retail-feedbacks-uc4.py:127 | a sum of non-negative numbers is non-negative |
| Aggregation.PivotCellUnique | dictanova/demo/retail-feedbacks/demo-retail-feedbacks-uc4.py:127 | when exactly one row carries the keys, the cell is its measure |
| Common.Minus | dictanova/demo/retail-feedbacks/demo-retail-feedbacks-uc4.py:193-199 | the difference of two cells, missing exactly when either is |
| Common.Divide | dictanova/demo/retail-feedbacks/demo-retail-feedbacks-uc3.py:126 | a float quotient: finite for a non-zero denominator, NaN for 0/0 or a missing denominator, an infinity of the numerator's sign otherwise |
| Common.DivideExceeds | dictanova/demo/retail-feedbacks/demo-retail-feedbacks-uc3.py:126-131 | over a non-negative divisor s, the quotient exceeds t exactly when the numerator exceeds t·s |
| Common.QuotientLeIsTotalPreorder | dictanova/demo/retail-feedbacks/demo-retail-feedbacks-uc5.py:151 | ascending order with NaN first is a total preorder |
| Common.QuotientLeOnExceeding | dictanova/demo/retail-feedbacks/demo-retail-feedbacks-uc5.py:151 | above a threshold the order is that of the numbers, with +inf last |
| Common.SliceBound | dictanova/demo/retail-feedbacks/demo-retail-feedbacks-uc2.py:110 | Python's slice bound: a negative bound counts from the end, and out-of-range bounds are clamped |
| Common.Slice | dictanova/demo/retail-feedbacks/demo-retail-feedbacks-uc2.py:110 | `s[i:j]` is the items between the normalised bounds, and `s[i..j]` for in-range bounds |
| Common.SliceFrom | dictanova/demo/product-reviews/demo-product-reviews-uc1.py:163 | `s[i:]` from the normalised bound |
| Common.TakeLast | dictanova/demo/retail-feedbacks/demo-retail-feedbacks-uc5.py:153 | `s[-k:]`: the last k items, or all of them; `s[-0:]` is all of them |
| Common.Take | dictanova/demo/retail-feedbacks/demo-retail-feedbacks-uc2.py:81 | `s[:k]`: a prefix of length min(k, \|s\|) |
| Common.Filter | dictanova/demo/product-reviews/demo-product-reviews-uc1.py:155 | exactly the items satisfying the condition |
| Common.FilterKeepsAll | dictanova/demo/product-reviews/demo-product-reviews-uc1.py:155 | a filter that keeps every item returns its input |
| Common.FilterMultiset | dictanova/demo/product-reviews/demo-product-reviews-uc1.py:155 | a kept item occurs as often as in the input |
| Common.FilterKeepsOrder | dictanova/demo/product-reviews/demo-product-reviews-uc1.py:155 | kept items keep their relative order |
| Common.FilterNoDuplicates | dictanova/demo/retail-feedbacks/demo-retail-feedbacks-uc3.py:110 | a filter of distinct items has distinct items |
| Common.Insert | dictanova/demo/product-reviews/demo-product-reviews-uc1.py:156 | inserting adds exactly one item |
| Common.SortBy | dictanova/demo/product-reviews/demo-product-reviews-uc1.py:156 | the sort is a permutation of its input |
| Common.InsertSorted | dictanova/demo/product-reviews/demo-product-reviews-uc1.py:156 | inserting into a sorted sequence keeps it sorted |
| Common.FilterAppend | dictanova/demo/product-reviews/demo-product-reviews-uc1.py:155 | filtering a concatenation filters each part in turn |
| Common.InsertStable | dictanova/demo/product-reviews/demo-product-reviews-uc1.py:156 | inserting an item keeps the items level with any key in their order, the inserted item first among them |
| Common.SortByStable | dictanova/demo/product-reviews/demo-product-reviews-uc1.py:156 | the sort is stable: the items of equal key come out in the order they went in, as with Python's `sorted` (so highlights with the same `begin` keep the document's order) |
| Common.SortBySorted | dictanova/demo/product-reviews/demo-product-reviews-uc1.py:156 | the sort's result is ordered |
| Common.SortedPrefix | dictanova/demo/retail-feedbacks/demo-retail-feedbacks-uc6.py:97 | sorting then keeping k gives at most k sorted items of the input; an item left out comes after the last kept one |
| Common.PrefixOfSorted | dictanova/demo/retail-feedbacks/demo-retail-feedbacks-uc6.py:97 | the first k items of a sorted sequence are sorted, and an item left out comes after the last kept one |
| Common.TopKSelection | dictanova/demo/retail-feedbacks/demo-retail-feedbacks-uc3.py:130-131 | threshold then sort then keep k: at most k sorted items satisfying the threshold; a satisfying item left out comes after the last kept one |
| Common.SortedSuffix | dictanova/demo/retail-feedbacks/demo-retail-feedbacks-uc5.py:151-153 | sorting then keeping the last k gives at most k sorted items of the input; an item left out comes before the first kept one |
| Common.SuffixOfSorted | dictanova/demo/retail-feedbacks/demo-retail-feedbacks-uc5.py:153 | the last k items of a sorted sequence are sorted, and an item left out comes before the first kept one |
| Common.SortedSlice | dictanova/demo/retail-feedbacks/demo-retail-feedbacks-uc5.py:153 | a suffix of a sorted sequence is sorted |
| Common.LastKSelection | dictanova/demo/retail-feedbacks/demo-retail-feedbacks-uc5.py:151-153 | threshold then ascending sort then keep the last k: at most k sorted items satisfying the threshold; a satisfying item left out comes before the first kept one |
| Common.FirstIndex | dictanova/demo/product-reviews/demo-product-reviews-uc4.py:69 | the position of the first occurrence |
| Common.Distinct | dictanova/demo/retail-feedbacks/demo-retail-feedbacks-uc5.py:88 | `unique()`: exactly the items of the input |
| Common.DistinctOrdered | dictanova/demo/retail-feedbacks/demo-retail-feedbacks-uc5.py:88 | each item once, in order of first occurrence |
| Common.FirstIndexPrefix | dictanova/demo/product-reviews/demo-product-reviews-uc4.py:69 | appending does not move a first occurrence |
| Common.NatToString | dictanova/demo/retail-feedbacks/demo-retail-feedbacks-uc3.py:120 | decimal digits without leading zero |
| Common.IntToString | dictanova/demo/retail-feedbacks/demo-retail-feedbacks-uc3.py:120 | `"%d" % i`, with a minus sign exactly for negatives |
| Common.NatToStringInjective | dictanova/demo/retail-feedbacks/demo-retail-feedbacks-uc3.py:120 | different numbers have different renderings |
| Common.IntToStringInjective | dictanova/demo/retail-feedbacks/demo-retail-feedbacks-uc3.py:120 | different integers have different `%d` renderings |

## Left out

- HTTP traffic to the token, search and aggregation endpoints. Each answer is a parameter: `reply` for the token, `page`, `post`, `answer`, `cooccurrences` and `documents` for the API answers.
- Reading the `../credentials` file. Id and secret are constructor arguments.
- Rendering and output: matplotlib, WordCloud, `savefig`, `show`, colormaps, titles and `print` formatting. What a chart or a line would show is modelled; how it is drawn is not.
- Floating point: values are exact reals. pandas' NaN and infinities from a zero denominator are modelled, as `Quotient` and as missing cells; IEEE rounding is not.
- `std` and `mean` of a window: the mean is exact; the standard deviation (sample, ddof = 1) is a parameter `std`, assumed non-negative where a lemma needs it.
- pandas internals of `json_normalize`, `groupby`, `unstack` and `set_index`. Tables are sequences of rows, or a map of columns for the polarity frame.
- `pivot_table` with duplicate rows: a cell is the mean of the matching rows, as pandas computes it. The lemmas that state a cell's value as one row's measure require each combination once, as the DISTINCT aggregations return.
- `sort_values` stability: pandas' default sort is not stable. The model sorts stably and its contracts claim only order and permutation, which any sort meets.
- Column order in printed tables, and `rename`/`drop` of columns other than those stated in the table above.
- PriceImpact.LeftJoinUnique: the one-row-per-key result assumes unique right keys, which the DISTINCT grouping of the answers gives. Duplicate keys are modelled by `LeftJoin`, but nothing beyond `LeftJoinRows` is proved for them.
- Grid panels for n = 1 to 3: `plt.subplots(row, 1)` returns a 1-D array (or one axis), so `axis[r][c]` fails for another reason; matplotlib's squeezing is not modelled.
- Grid.Layout for n = 0 (no vendor or brand with a positive value): the model gives an empty layout, while `plt.subplots(0, 0)` raises ValueError in matplotlib; that failure is not modelled.
- The whole product-reviews uc3 script: it builds one query and prints the API's sorted answer. The same `DictanovaAPIAuth` class appears in every script; the one in product-reviews uc1 is modelled.
- The commented-out splicing block in retail-feedbacks uc2 (lines 113-120): dead code, the same loop as product-reviews uc1.
- The per-polarity section of retail-feedbacks uc5 (lines 183-254): it repeats the filter, projection and score of lines 137-153 with a polarity dimension.
- The plotting loops of retail-feedbacks uc6 (lines 152-172 and 214-224) and its last section, the NPS per polarity (lines 226-280), which only pivots and plots.
- The printed sorts of retail-feedbacks uc1 (lines 157-179): `sort_values` plus `iloc[0:10]` of columns already modelled.
- Token expiry: the source has none; the token, once fetched, is used forever.
- Timeline.PolarityFrame.constructor: it takes rows that are already projected. The failures of lines 141-144 are those of `Aggregation.ProjectAnswer`: KeyError on an empty answer, IndexError on a row with fewer than three dimensions. They are not restated on the class.
- CsatImpact.DistributionOf and CsatImpact.ReferenceCsat: they take ratings already converted by `int(v["dimensions"][0])` (retail-feedbacks uc1, lines 82 and 123). The IndexError of a row without dimensions and the ValueError of a dimension that is not an integer are not modelled, nor is Python's `int()` parsing of the label.
- Aggregation.PivotIndex and Aggregation.PairIndex: pandas sorts the labels of a `pivot_table`, `unstack` or `groupby` index, while these list them in order of first appearance. Their contracts, and those of the tables built over them (`Trends.Rows`, `Nps.DetailRows`, `Nps.DetailRowsIndex`), state which labels appear and that each appears once, not the sorted order.
- Auth.SetHeader: header names are compared with their ASCII letters lower-cased; Python's `str.lower()`, which the case-insensitive header dict uses, also folds non-ASCII letters, which header names (tokens, section 5.1 of RFC 9110) do not contain.
- Nps.MissingGroup: the KeyError of `df[["promoters","detractors","passives"]]` lists every missing label; the model, and `Nps.NpsDetails` through it, names only the first missing one.
- Trends.MissingColumn: the KeyError of `df[["pos","neg","neu"]]` lists every missing label; the model names only the first missing one.
- PriceImpact.Impact: its own contract states only the row count and the keys; the values of the variations are stated by `VariationZero` and `VariationSign`.

## Findings

| source | as written | input that shows it | evidently intended | confidence | as-written member | corrected member |
|---|---|---|---|---|---|---|
| dictanova/demo/retail-feedbacks/demo-retail-feedbacks-uc5.py:89-105 | `row = ceil(sqrt(n))`, `col = floor(sqrt(n))`, panel i at `axis[i // col][i % col]` (the same grid is used for brands in demo-product-reviews-uc5.py, lines 101-120): the grid has fewer than n cells when k² + k < n for k = ⌊√n⌋ | n = 7 vendors: a 3×2 grid, panel 6 is sent to row 3 and `axis[3]` raises IndexError | every vendor (brand) gets its own cell: ceil(n / col) rows | not executed | Grid.SevenPanelsOverflow, Grid.LastPanelOffGrid | Grid.FittedGridHoldsEveryPanel, Grid.FittedLayout |
| dictanova/demo/retail-feedbacks/demo-retail-feedbacks-uc6.py:147-149 | each percentage divides by `df.sum(axis="columns")` of the frame as it is then, so the NEG_PERC denominator includes POS_PERC and the NEU_PERC one includes both | volumes POSITIVE 1, NEGATIVE 1, NEUTRAL 0: POS_PERC 50, NEG_PERC 100/52, NEU_PERC 0, which add up to about 51.9 | each polarity's share of the row's volume, the three adding up to 100 | not executed | Timeline.AsWrittenPercentagesCounterexample, Timeline.PolarityFrame.AddPercentages | Timeline.SharePercentagesSumTo100, Timeline.PolarityFrame.AddSharePercentages |
