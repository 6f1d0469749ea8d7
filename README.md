# job-search-linebot: the condition and ranking core, in Dafny

This project models the deterministic core of job-search-linebot, a LINE chat bot that helps
users look for jobs in Taiwan. A user writes what they want in free text, for example
「台北 python工程師 月薪50k以上 3年經驗」. The bot pulls search conditions out of the text, asks for
the missing ones over a few turns, generates or collects job listings, ranks them against the
conditions, and keeps per-user favourites, search history and preferred keywords.

The model has one module per core source file:

| module | file | models |
|---|---|---|
| `ConditionGuide` | `condition_guide.dfy` | `JobConditionGuide` in `job_condition_guide.py`: the keyword tables, the salary patterns and `_normalize_salary`, the title picker, the missing-field list, completeness, and formatting for the search |
| `Conversations` | `conversation.dfy` | `ConversationManager` in `job_condition_guide.py`: the per-user dialogue through the stages `initial`, `collecting_conditions` and `ready_to_search` |
| `AdvancedSearch` | `advanced_search.dfy` | `AdvancedJobSearch` in `advanced_search.py`: query parsing, the weighted relevance score, `filter_jobs`, salary reading and related-search suggestions |
| `UserManagement` | `user_manager.dfy` | `UserManager` in `user_manager.py`: users, favourites, search history, preferred keywords, popular keywords |
| `Crawler` | `crawler.dfy` | `ZeroDependencyCrawler` in `crawler.py`: category selection and the template job generator |
| `Crawlr` | `crawlr.dfy` | `JobCrawler` in `crawlr.py`: `clean_text`, `extract_salary` and the fixed CakeResume sample |

Shared modules stand in for the parts of Python the core relies on:
- `Text`: `str.lower`, `strip`, `split`, `replace`, `in`, `isdigit`, `int`, `str` and slicing with `[:n]`.
- `Patterns`: a hand-written matcher for each fixed regular expression, with `re.search` (leftmost match), `re.findall` (successive non-overlapping matches) and `re.sub` with an empty replacement.
- `Sorting`: the stable `list.sort(key=..., reverse=True)`.
- `Dicts`: insertion-ordered dictionaries and the count dictionary behind `Counter.most_common` and `get_popular_keywords`.
- `UrlQuote`: `urllib.parse.quote` with its default safe character `/`.
- `Wrappers`: an `Option` type.

The code's form is kept. A source loop that builds a list or accumulates a score becomes a
`method` with a loop, proved equal to a function that states its result. The properties are
proved about that function. `UserManager` and `ConversationManager` are classes: the first holds
the saved user document and the job list, the second the dictionary of dialogues.

Things abstracted away:
- jieba segmentation is a parameter `seg: string -> seq<string>`.
- Clock readings (`datetime.now()` and `time.time()`) are parameters: `now` as a string, `seconds` as a number.
- `random.choice` and the colour that `hash()` picks are nondeterministic choices from the given list.
- The relevance ratio is computed on exact reals.

Where the behaviour of the code differs from what its comments and names suggest, the model
follows the code:
- `_extract_job_title` returns the mapping of the first direct phrase in table order that occurs
  in the text, not of the longest one: in 「軟體工程師pm」 the phrase `pm` beats `軟體工程師`.
- `add_favorite` compares the job id with the favourite records, never with their ids, so it
  never finds a duplicate and always appends.
- `add_favorite` and `record_search` load the user document before calling `add_user`, then save
  their own copy. So what `add_user` did is lost, and a user who was not in the loaded copy gets
  no counter update.
- The salary readers take digit runs, so thousands separators split a number:
  `_extract_salary_from_job` reads 「60,000-90,000」 as 60.
- In `job_condition_guide.py`, the second range pattern (with 薪資) can never decide the result,
  because the plain range pattern is always found wherever it matches.
- The query 「2-5年」 asks for mid-level experience, and `parse_search_query` also reads it as a
  salary range from 2 to 5.

## Model

| member | source | states |
|---|---|---|
| Text.Lower | job_condition_guide.py:71-72 | `str.lower()` keeps the length and lowers each character on its own (ASCII letters) |
| Text.StripLeft | advanced_search.py:33 | the result is a suffix of the input that does not start with whitespace, and everything cut off is whitespace |
| Text.StripRight | advanced_search.py:33 | the result is a prefix of the input that does not end with whitespace, and everything cut off is whitespace |
| Text.Strip | advanced_search.py:33 | `strip()` leaves no whitespace at either end and never lengthens the text |
| Text.StripTrimmed | job_condition_guide.py:191 | a text with no whitespace at either end is its own strip |
| Text.LowerNoCapital | job_condition_guide.py:191 | a text without ASCII capitals is its own `lower()` |
| Text.NotContainsWithoutFirst | advanced_search.py:66 | a word whose first character is absent from a text is not `in` it |
| Text.NoDupConcat | advanced_search.py:78-82 | joining two repeat-free lists with no common element gives a repeat-free list |
| Text.WordLength | job_condition_guide.py:240 | the first run of non-whitespace is maximal: it stops at whitespace or at the end |
| Text.Split | job_condition_guide.py:240 | every piece that `split()` returns is a non-empty run of non-whitespace characters, and there are none exactly when the text is all whitespace |
| Text.SplitPiecesOccur | job_condition_guide.py:240 | every piece `split()` returns occurs in the text |
| Text.SplitJoin | job_condition_guide.py:240 | joining the pieces with single spaces gives the text with its whitespace runs collapsed to one space and its ends stripped |
| Text.SplitUnique | job_condition_guide.py:240 | the pieces are the only list of non-empty whitespace-free words that joins with single spaces to that text |
| Text.Replace | job_condition_guide.py:238 | `str.replace` leaves a text without the pattern unchanged, and never lengthens it when the replacement is no longer than the pattern |
| Text.ReplaceRemoves | job_condition_guide.py:238 | after replacing a space-free pattern by a space, the pattern no longer occurs |
| Text.ReplaceKeepsAbsent | job_condition_guide.py:236-238 | replacing any pattern by a space never creates an occurrence of a space-free word that was absent |
| Text.ReplaceAround | advanced_search.py:102 | replacing a word without overlapping occurrences in a + word + b gives a's result, the replacement, then b's result |
| Text.ContainsAcrossSpace | advanced_search.py:101-102 | a space-free word inside a + " " + b lies inside a or inside b |
| Text.DigitsValue | advanced_search.py:113 | `int()` of a digit run is below 10 to the run's length, and 0 exactly when every digit is 0 |
| Text.CollapseSpaces | crawlr.py:26 | collapsing whitespace runs to one space never lengthens the text, is empty only for the empty text, and keeps whether the text starts with whitespace |
| Text.CollapseSpacesSingleSpaced | crawlr.py:26 | after collapsing, every whitespace character is a single plain space, and a final non-space character stays last |
| Text.CollapseSpacesFixpoint | crawlr.py:26 | a text that is already single-spaced is left unchanged by collapsing |
| Text.ConsSingleSpaced | crawlr.py:26 | putting a character in front keeps a text single-spaced when no two spaces meet |
| Text.SingleSpacedTail | crawlr.py:26 | dropping the first character keeps a text single-spaced |
| Text.DigitChar | crawler.py:308 | each digit value has a decimal digit character that reads back as that value |
| Text.NatToString | crawler.py:308 | `str(n)` is a digit string that `int()` reads back as n |
| Text.Take | user_manager.py:217 | `s[:n]` is a prefix of s of length min(n, len(s)) for n ≥ 0, and drops -n elements from the end for a negative n |
| Patterns.DigitRunEnd | job_condition_guide.py:256 | a greedy `\d*` stops at the first non-digit or at the end |
| Patterns.SpaceRunEnd | job_condition_guide.py:256 | a greedy `\s*` stops at the first non-whitespace or at the end |
| Patterns.UnitEnd | job_condition_guide.py:256 | an optional unit `[k千萬]?` takes one character exactly when a unit character is there |
| Patterns.LiteralEnd | job_condition_guide.py:257 | a literal matches only inside the text, and ends right after itself |
| Patterns.AmountAt | job_condition_guide.py:276-278 | `(\d+)([units]?)` consumes at least one character and captures a digit run and a unit |
| Patterns.RangeAt | job_condition_guide.py:256 | the range pattern captures four groups, with digit runs for both amounts |
| Patterns.LabelEnd | job_condition_guide.py:257 | `薪資?\s*` consumes at least the character 薪 when it matches |
| Patterns.AmountThen | job_condition_guide.py:276 | an amount followed by spaces and a literal captures a digit run and a unit |
| Patterns.MatchAt | job_condition_guide.py:255-258 | a match of a fixed pattern starts where asked, is non-empty, stays inside the text and has that pattern's number of groups, whose amounts are digit runs |
| Patterns.Search | job_condition_guide.py:262 | `re.search` returns the match at the smallest start position, and nothing matches before it |
| Patterns.FindAll | advanced_search.py:53 | every match `re.findall` reports is a match of the pattern at its own start; there are none exactly when `re.search` finds nothing, and the first is what `re.search` finds |
| Patterns.FindAllChain | advanced_search.py:53 | each later match is what `re.search` finds from where the one before ends, and after the last one `re.search` finds nothing |
| Patterns.FindAllLast | advanced_search.py:53-60 | after the last match reported, `re.search` finds nothing more |
| Patterns.LabelledRangeContainsRange | job_condition_guide.py:255-258 | wherever the labelled range pattern matches, the plain range pattern matches right after the label, with the same groups |
| Patterns.LabelledRangeNeverAfterNoRange | job_condition_guide.py:261-262 | when the plain range pattern is found nowhere, the labelled one is found nowhere either |
| Patterns.FirstWordLength | crawlr.py:34 | the length of a salary word that occurs at i, or 0 exactly when no listed word occurs there |
| Patterns.MatchLength | crawlr.py:34 | a match never runs past the end of the text |
| Patterns.DeleteMatches | crawlr.py:34 | deleting the matches never makes the text longer; DeleteKeepsOne, DeleteDropsMatch, DeleteKeepsGap and DeleteNothing pin down which characters stay |
| Patterns.DeleteKeepsOne | crawlr.py:34 | where the pattern does not match, the character there is kept, and deletion goes on right after it |
| Patterns.DeleteNothing | crawlr.py:34 | where the pattern matches nowhere, `re.sub` changes nothing |
| Patterns.DeleteKeepsGap | crawlr.py:34 | a stretch where the pattern matches nowhere is copied as it is, followed by the deletion of the rest |
| Patterns.DeleteDropsMatch | crawlr.py:34 | a match is dropped whole, and deletion goes on right after it |
| Patterns.DeleteCutsOut | advanced_search.py:62 | a single match from i to j is cut out and what comes before and after it kept |
| Patterns.FirstWordLengthAt | crawlr.py:34 | where a listed word occurs and no earlier word starts with the same character, the alternation matches that word |
| Patterns.FirstDigitFrom | advanced_search.py:195 | the first digit at or after i, and no digit before it |
| Patterns.FirstNumber | advanced_search.py:195-198 | the first digit run `re.findall` reports exists exactly when the text has a digit, and it is the first maximal run of digits in the text |
| Patterns.FirstDigitRunIsFound | advanced_search.py:195 | the first maximal digit run starts at the first digit of the text |
| Patterns.FirstNumberFindsRun | advanced_search.py:195-198 | whatever the first maximal digit run of the text is, it is the number read |
| Sorting.InsertDesc | advanced_search.py:133 | inserting adds one element and keeps all the others |
| Sorting.SortDesc | advanced_search.py:133 | the sort keeps the length |
| Sorting.InsertDescSorted | advanced_search.py:133 | inserting into a list sorted by falling key keeps it sorted |
| Sorting.InsertDescBelow | advanced_search.py:133 | inserting below a bound into a list below that bound keeps every key below it |
| Sorting.InsertDescWithKey | advanced_search.py:133 | inserting only adds x to the elements of its own key, and keeps the order of every key |
| Sorting.SortDescSorted | advanced_search.py:133 | `sort(key, reverse=True)` leaves the keys non-increasing |
| Sorting.SortDescStable | advanced_search.py:133 | the sort is stable: for every key, the elements with that key come out in their input order |
| Sorting.SortDescPermutation | advanced_search.py:133 | the sort is a permutation: every element is kept, as often as it occurs |
| Sorting.SortDescConstant | user_manager.py:216 | a list whose keys are all equal comes out unchanged |
| Dicts.Keys | user_manager.py:244 | the keys of a dict, one per pair, in insertion order |
| Dicts.Get | user_manager.py:248 | `d.get(k)` finds a value exactly when k is a key |
| Dicts.Put | user_manager.py:248 | `d[k] = v` keeps the key order, appends a new key at the end, and stores v under k |
| Dicts.PutOther | user_manager.py:248 | storing under k leaves every other key's value alone |
| Dicts.PutPut | user_manager.py:248 | storing twice under one key is the same as storing the second value once |
| Dicts.PutElements | user_manager.py:248 | every pair of the new dict is the stored pair or an old pair |
| Dicts.GetFound | user_manager.py:248 | a key's value is stored beside it |
| Dicts.GetMember | user_manager.py:248 | when no key repeats, lookup finds the value stored with a pair |
| Dicts.Bump | user_manager.py:248 | `counts[k] = counts.get(k, 0) + 1` raises k's count by one and appends k if it is new |
| Dicts.BumpOther | user_manager.py:248 | bumping k leaves every other count alone |
| Dicts.BumpNewKey | user_manager.py:248 | bumping a new key appends it with count 1 |
| Dicts.TallySnoc | user_manager.py:245-248 | counting one more element bumps its count |
| Dicts.BumpKeepsKeysDistinct | user_manager.py:248 | bumping never repeats a key |
| Dicts.TallyCounts | user_manager.py:244-248 | the count dict has each element once, with the number of times it occurs |
| Dicts.TallyOfDistinct | advanced_search.py:236 | when no element repeats, the count dict pairs each element with 1, in input order |
| Dicts.TallyPositive | user_manager.py:244-248 | every key of the count dict was counted at least once |
| Dicts.TallyPair | user_manager.py:244-248 | a pair of the count dict holds an element with its number of occurrences, which is positive |
| Dicts.PermutationKeepsKeysDistinct | user_manager.py:251 | reordering a dict with distinct keys keeps the keys distinct |
| Dicts.MostCommon | user_manager.py:251-252 | the result is a prefix of the count pairs sorted by falling count |
| Dicts.MostCommonOfDistinct | advanced_search.py:236-237 | without repeated elements, `Counter(s).most_common(n)` gives the first n elements in order |
| Dicts.MostCommonSorted | user_manager.py:251-252 | at most n pairs, sorted by falling count |
| Dicts.SortedTallyCounts | user_manager.py:251 | every pair of the sorted count dict holds a distinct element with its number of occurrences |
| Dicts.MostCommonCounts | user_manager.py:251-252 | the kept pairs hold distinct elements, each with its number of occurrences |
| Dicts.InSortedTally | user_manager.py:251 | every element counted appears in the sorted count pairs |
| Dicts.PrefixAbove | user_manager.py:252 | in a list sorted by falling count, the first pairs count at least as much as any later pair |
| Dicts.MostCommonLeftOut | user_manager.py:251-252 | an element left out occurs no more often than any element kept |
| Dicts.MostCommonComplete | user_manager.py:251-252 | with n at least the number of distinct elements, every element is kept |
| UrlQuote.Utf8Char | crawler.py:293 | a character takes one to four UTF-8 bytes, and one byte exactly when it is ASCII |
| UrlQuote.Utf8CharValue | crawler.py:293 | the bytes form valid UTF-8: the lead byte announces the length, the rest are continuation bytes, and together they spell the code point |
| UrlQuote.Utf8 | crawler.py:293 | UTF-8 takes one to four bytes per character |
| UrlQuote.HexDigit | crawler.py:293 | each nibble becomes an upper-case hexadecimal digit |
| UrlQuote.HexValue | crawler.py:293 | a hexadecimal digit has a value from 0 to 15 |
| UrlQuote.QuoteByte | crawler.py:293 | a safe byte stays itself; any other becomes `%XX`, whose two digits spell the byte |
| UrlQuote.QuoteBytes | crawler.py:293 | each byte becomes one to three characters |
| UrlQuote.Quote | crawler.py:293 | `quote()` writes only safe characters and %XX escapes, one to twelve characters per input character |
| UrlQuote.QuoteBytesAlphabet | crawler.py:293 | quoted bytes use only safe characters, '%' and hexadecimal digits |
| UrlQuote.QuoteAlphabet | crawler.py:293 | `quote()` writes only safe characters and `%XX` escapes |
| UrlQuote.QuoteSafe | crawler.py:293 | a text made of safe characters comes out unchanged |
| UrlQuote.Unquote | crawler.py:293 | undoing the escapes never lengthens the text and gives nothing only for the empty text |
| UrlQuote.UnquoteByte | crawler.py:293 | undoing the escape of one quoted byte gives back that byte |
| UrlQuote.UnquoteQuoteBytes | crawler.py:293 | undoing the escapes gives back exactly the quoted bytes |
| UrlQuote.UnquoteQuote | crawler.py:293 | `quote()` loses nothing: unquoting its output gives the UTF-8 bytes of the keyword |
| ConditionGuide.NormalizeSalary | job_condition_guide.py:292-310 | a value is read exactly when the text is a run of ASCII digits, which every `(\d+)` group passed in is; k, K and 千 multiply it by 1000 and 萬 by 10000; with no unit an amount below 100 is taken in 萬, one below 1000 in thousands, and a larger one as written; the value is 0 or at least 1000 |
| ConditionGuide.NormalizeSalaryNotMonotone | job_condition_guide.py:303-306 | with no unit, 99 is worth 990000 and 100 only 100000 |
| ConditionGuide.FirstSearch | job_condition_guide.py:260-262 | the match comes from one of the patterns; there is none exactly when no pattern is found; its first group is a digit run |
| ConditionGuide.SearchPatterns | job_condition_guide.py:260-275 | the pattern loop, which stops at the first pattern found, gives that first pattern's match |
| ConditionGuide.KindOf | job_condition_guide.py:269-273 | yearly exactly when 年薪 or 年收 occurs, hourly exactly when 時薪 occurs and they do not, monthly otherwise |
| ConditionGuide.SalaryOf | job_condition_guide.py:249-290 | a maximum exactly when the plain range pattern is found; no minimum exactly when neither a range nor a single-sided pattern is found; every amount is 0 or at least 1000 |
| ConditionGuide.ExtractSalary | job_condition_guide.py:249-290 | the two loops of `_extract_salary` compute the salary record defined by the range-then-single rule |
| ConditionGuide.RangeSearchIsPlainRange | job_condition_guide.py:253-262 | the range loop's result is the match of the plain range pattern alone |
| ConditionGuide.RangeSetsBoth | job_condition_guide.py:259-288 | a range match sets both ends; max is the normalised upper amount; min is the normalised lower amount when that is truthy, and otherwise the amount of the first single-sided pattern found, or the falsy lower amount when none is found |
| ConditionGuide.NoRangeNoMax | job_condition_guide.py:276-288 | with no range there is no maximum; there is a minimum exactly when a single-sided pattern is found, and it is the normalised amount of the first such pattern in list order |
| ConditionGuide.KindOnlyFromRange | job_condition_guide.py:269-273 | the salary type is yearly or hourly only when a range was found, with 年薪/年收 before 時薪; it is monthly otherwise |
| ConditionGuide.TableHits | job_condition_guide.py:315-326 | the categories found never repeat |
| ConditionGuide.CollectCategories | job_condition_guide.py:315-339 | the nested loop with `break` computes the categories found, in table order |
| ConditionGuide.TableHitsMembers | job_condition_guide.py:315-339 | a category is reported exactly when one of its synonyms is a substring of the text |
| ConditionGuide.HitKeysSnoc | job_condition_guide.py:319-324 | one more table entry adds its name exactly when one of its synonyms occurs |
| ConditionGuide.TableHitsInTableOrder | job_condition_guide.py:315-339 | with distinct category names, the result is exactly the names of the categories with a hit, in table order |
| ConditionGuide.TablesHaveDistinctKeys | job_condition_guide.py:18-48 | the location, industry, experience and company-type tables have distinct category names |
| ConditionGuide.LocationKeysDistinct | job_condition_guide.py:18-27 | the location table has distinct region names |
| ConditionGuide.IndustryKeysDistinct | job_condition_guide.py:30-39 | the industry table has distinct names |
| ConditionGuide.ExperienceKeysDistinct | job_condition_guide.py:42-47 | the experience table has distinct level names |
| ConditionGuide.CompanyTypeKeysDistinct | job_condition_guide.py:366-371 | the company-type table has distinct names |
| ConditionGuide.CapitalSynonymsNeverMatch | job_condition_guide.py:31 | a lowered text never contains `IT` or `AI`, so those two synonyms of 科技業 can never match |
| ConditionGuide.FirstHitIndex | job_condition_guide.py:341-348 | the first category with a keyword in the text, and no earlier category has one |
| ConditionGuide.ExperienceOf | job_condition_guide.py:341-348 | "" exactly when no level has a keyword in the text; otherwise a level with a keyword, and no earlier level has one |
| ConditionGuide.ExtractExperience | job_condition_guide.py:341-348 | the experience loop returns the first level in table order with a keyword in the text, or "" |
| ConditionGuide.ThreeYearsIsJunior | job_condition_guide.py:43-45 | a text with 3年 gives 新鮮人 or 1-3年, never 3-5年 |
| ConditionGuide.SeniorNeverFromFiveYears | job_condition_guide.py:45-46 | the level 5年以上 comes only from a text without 5年, because 5年 of 3-5年 is tried first |
| ConditionGuide.WorkTypeOf | job_condition_guide.py:350-359 | 遠端 exactly when a remote word occurs; 現場 exactly when an on-site word and no remote word occurs; 混合 exactly when only a hybrid word occurs; "" exactly when none occurs |
| ConditionGuide.RemoteWorkHasRemoteRegion | job_condition_guide.py:350-353 | a remote work type always comes with the 遠端 region, since every remote word is a synonym of that region |
| ConditionGuide.FlexibleIsRemoteRegionButHybrid | job_condition_guide.py:350-357 | 彈性 alone gives the 遠端 region but the hybrid work type |
| ConditionGuide.EngineerIsManufacturing | job_condition_guide.py:33 | every text with 工程師 is placed in 製造業, through its synonym 工程 |
| ConditionGuide.FirstPhraseIndex | job_condition_guide.py:193-196 | the first phrase of the mapping in the text, and no earlier phrase occurs |
| ConditionGuide.Candidates | job_condition_guide.py:206-217 | every candidate has two characters or more, is not a condition word or a number, and has no k, K, 萬 or 千 |
| ConditionGuide.FirstContaining | job_condition_guide.py:225-227 | the first candidate in list order that contains the keyword; none exactly when no candidate contains it |
| ConditionGuide.PickByKeyword | job_condition_guide.py:224-227 | for the first position keyword, in list order, that some candidate contains: the first candidate containing it; none when no candidate contains any keyword |
| ConditionGuide.FirstOfTwo | job_condition_guide.py:230-232 | the first candidate of two characters or more; none exactly when every candidate is shorter |
| ConditionGuide.LongWords | job_condition_guide.py:241 | the words longer than one character that are not numbers, in order: empty exactly when there is no such word, and headed by the first such word |
| ConditionGuide.FirstLongWord | job_condition_guide.py:241-247 | the first word longer than one character that is not a number, or "" exactly when there is none |
| ConditionGuide.DirectTitle | job_condition_guide.py:193-196 | a direct title exists exactly when some phrase of the mapping occurs in the lowered, stripped text |
| ConditionGuide.SegmentTitle | job_condition_guide.py:219-232 | the keyword pick when there is one; otherwise, when all are candidates, the first candidate; none exactly when there is no candidate, or no pick and every candidate is shorter than two characters |
| ConditionGuide.FindMappedTitle | job_condition_guide.py:193-196 | the mapping loop returns the value of the first phrase found, or nothing when no phrase occurs |
| ConditionGuide.DirectTitlesAreLong | job_condition_guide.py:112-188 | every title of the direct mapping has at least two characters |
| ConditionGuide.CollectCandidates | job_condition_guide.py:210-217 | the candidate loop keeps exactly the stripped segments that may be titles, in order |
| ConditionGuide.PickKeywordLoop | job_condition_guide.py:224-227 | the nested loops return the pick by keyword: the first candidate containing the first keyword that any candidate contains |
| ConditionGuide.PickSegmentTitle | job_condition_guide.py:219-232 | the position-keyword loops, then the first-candidate loop, give the segment title |
| ConditionGuide.ReplaceAll | job_condition_guide.py:236-238 | the replace loop replaces each condition word, in order, by a space |
| ConditionGuide.RemoveWords | job_condition_guide.py:236-238 | a text that contains none of the (non-empty) words is left as it is |
| ConditionGuide.RemoveWordsClears | job_condition_guide.py:236-238 | once every space-free word is replaced by a space, none of them occurs any more |
| ConditionGuide.LeftoverTitle | job_condition_guide.py:234-247 | the first word, left once the condition words are replaced by spaces, that is longer than one character and not a number; "" exactly when there is none; it holds no condition word |
| ConditionGuide.LeftoverWordClean | job_condition_guide.py:236-240 | no word left once the condition words are replaced by spaces contains a condition word |
| ConditionGuide.JobTitleOf | job_condition_guide.py:108-247 | the direct phrase's mapping when one occurs; else the keyword pick among the candidates; else the first candidate; else, with no candidate, the leftover word; it is "" or at least two characters long |
| ConditionGuide.ExtractJobTitle | job_condition_guide.py:108-247 | `_extract_job_title` step by step: a direct phrase, then a segment, then a leftover word, then "" |
| ConditionGuide.DirectTitleIsFirstHit | job_condition_guide.py:193-196 | when a phrase occurs, the title is the mapping of the first phrase in table order that occurs, whatever comes later |
| ConditionGuide.FirstHitNotLongest | job_condition_guide.py:112-196 | in 軟體工程師pm the short phrase pm beats the longer 軟體工程師, so the title is 產品經理 |
| ConditionGuide.FirstOfTwoIsFirst | job_condition_guide.py:229-232 | every candidate has two characters or more, so the fallback always takes the first candidate |
| ConditionGuide.TitleFromSegments | job_condition_guide.py:219-232 | without a direct phrase, a title that comes from the segments is a candidate, the first one when no position keyword occurs |
| ConditionGuide.JobTitleShape | job_condition_guide.py:108-247 | a title is "" or has at least two characters |
| ConditionGuide.JobTitleEmpty | job_condition_guide.py:193-247 | the title is "" exactly when no phrase, no candidate and no leftover word is found |
| ConditionGuide.CheckMissingInfo | job_condition_guide.py:381-397 | the appends build exactly the missing-field list |
| ConditionGuide.MissingInfoMeaning | job_condition_guide.py:381-397 | each field is listed exactly when its falsy test holds (a salary of 0 counts as missing), and nothing else is listed |
| ConditionGuide.MissingFieldsDistinct | job_condition_guide.py:385-395 | the four field names are distinct |
| ConditionGuide.MissingInfoOrdered | job_condition_guide.py:381-397 | the fields come once each, in the fixed order 職位名稱, 期望薪資, 工作地點, 工作年限 |
| ConditionGuide.MissingInfo | job_condition_guide.py:381-397 | at most the four fields, and none exactly when title, salary, location and experience are all truthy |
| ConditionGuide.MissingInfoIgnoresList | job_condition_guide.py:381-397 | the check never looks at the missing-field list it replaces |
| ConditionGuide.FormatSearchConditions | job_condition_guide.py:513-526 | the location is the first region found, or "" when none was found; the keyword is the job title, and the salary bounds, experience, industry, work type and company type are copied unchanged |
| ConditionGuide.ParseConditions | job_condition_guide.py:50-106 | the parser runs the extractors in the source's order, then the missing-field check |
| ConditionGuide.CompleteIff | job_condition_guide.py:509-511 | a parsed text is complete exactly when it has a title, a truthy salary end, a region and an experience level |
| ConditionGuide.IsComplete | job_condition_guide.py:509-511 | for parsed conditions, complete exactly when title, a truthy salary end, a region and an experience level are all there |
| ConditionGuide.ParseOf | job_condition_guide.py:50-106 | the parse keeps its input as original text and carries the missing-field list of what it found |
| ConditionGuide.FormattedLocationIsRegion | job_condition_guide.py:513-517 | the formatted location is "" or one of the eight region names |
| Conversations.FirstOutcome | job_condition_guide.py:547-577 | the first message stores its parse and keeps the counter at 0 |
| Conversations.FollowUpOutcome | job_condition_guide.py:579-620 | a follow-up stores the new parse and adds one to the counter |
| Conversations.Step | job_condition_guide.py:536-634 | `process_user_message` keeps every entry well formed: a new entry has no follow-ups, and a collecting one has conditions and fewer than three follow-ups |
| Conversations.AnswerFirstMessage | job_condition_guide.py:547-577 | the initial branch answers as the first-message rule says |
| Conversations.FirstDecision | job_condition_guide.py:551-577 | storing the parse and the completeness test follow the first-message rule |
| Conversations.AnswerFollowUp | job_condition_guide.py:579-620 | the collecting branch re-parses the text so far plus the new message, and answers as the follow-up rule says |
| Conversations.FollowUpDecision | job_condition_guide.py:587-620 | counting the follow-up and the two tests that end the dialogue follow the follow-up rule |
| Conversations.Answer | job_condition_guide.py:536-620 | an entry that is not finished is answered as the step rule says, and stays well formed |
| Conversations.StoreKeepsWellFormed | job_condition_guide.py:539-544 | storing a well-formed entry keeps every entry well formed |
| Conversations.NewEntryAnswersAsFresh | job_condition_guide.py:539-544 | a user without an entry is answered as if their entry had just been created |
| Conversations.RestartAnswersAsFresh | job_condition_guide.py:622-629 | replacing a finished entry by a new one and answering gives what answering the finished entry gives |
| Conversations.ConversationManager.Entry | job_condition_guide.py:546 | the user's entry, present exactly when the user has one |
| Conversations.ConversationManager.constructor | job_condition_guide.py:532-534 | the manager starts with no dialogues |
| Conversations.ConversationManager.ProcessUserMessage | job_condition_guide.py:536-634 | only the user's entry changes, to the step rule's new entry, and the reply is the step rule's reply |
| Conversations.ConversationManager.ResetConversation | job_condition_guide.py:636-639 | forgets the user's entry and leaves all the others |
| Conversations.ReadyRestarts | job_condition_guide.py:622-629 | a finished dialogue is answered exactly as a user without an entry |
| Conversations.AttemptsOnlyWhileCollecting | job_condition_guide.py:582-588 | the counter goes up by one only while collecting; a new or restarted dialogue starts at 0 |
| Conversations.SearchReplyMeaning | job_condition_guide.py:555-620 | a search reply ends the dialogue and carries the formatted stored conditions; it is forced exactly when they are incomplete, and only on the third follow-up; a collect reply carries the stored, incomplete conditions |
| Conversations.ThirdFollowUpSearches | job_condition_guide.py:601-610 | the third follow-up always starts the search |
| Conversations.Run | job_condition_guide.py:536-634 | one reply per message, and the entry stays well formed |
| Conversations.SearchWithinBudget | job_condition_guide.py:579-620 | no user is kept collecting forever: within four messages some reply starts the search |
| Conversations.ParseKeepsText | job_condition_guide.py:66 | the parser keeps its input as `original_text` |
| Conversations.CollectingKeepsHistory | job_condition_guide.py:583-584 | while a dialogue keeps collecting, `original_text` is the text so far followed by each new message after one space |
| Conversations.DialogueTextIsHistory | job_condition_guide.py:549-584 | a dialogue that has only asked for more holds all its messages joined by single spaces |
| Conversations.RunUnfold | job_condition_guide.py:536-634 | a run answers the first message, then the rest from the entry the first one leaves |
| Conversations.CollectingTail | job_condition_guide.py:579-620 | when every reply asks for more, so does every reply after the first |
| Conversations.FirstStepCollects | job_condition_guide.py:547-577 | a first message answered by asking for more leaves a collecting entry that holds its parse |
| AdvancedSearch.Hits | advanced_search.py:65-82 | at most one hit per listed word, and every hit occurs in the text |
| AdvancedSearch.HitsMembers | advanced_search.py:65-82 | a word is found exactly when it is listed and occurs in the text |
| AdvancedSearch.HitsDistinct | advanced_search.py:78-82 | a list without repeats gives hits without repeats |
| AdvancedSearch.SkillGroupsDistinct | advanced_search.py:12-20 | no skill repeats within its category |
| AdvancedSearch.ProgrammingSkillsApart | advanced_search.py:13-20 | the programming skills share nothing with the other categories |
| AdvancedSearch.OtherSkillsApart | advanced_search.py:15-20 | the data, design, marketing and management skills share nothing |
| AdvancedSearch.SkillKeywordsDistinct | advanced_search.py:12-20 | no skill is listed twice, in one category or across two |
| AdvancedSearch.NormalizeAmount | advanced_search.py:111-119 | k and K multiply the amount by 1000, 萬 by 10000, and any other unit leaves it as written |
| AdvancedSearch.NormalizeAmountAgainstGuide | advanced_search.py:111-119 | the two normalisers agree exactly when the unit is k, K or 萬, or the amount is 0, or there is no 千 and the amount is at least 1000 |
| AdvancedSearch.QueryRangeMatchesHaveGroups | advanced_search.py:53-56 | every salary-range match has two amounts that are digit runs, each with its unit |
| AdvancedSearch.RangeOf | advanced_search.py:56-60 | without units the range is the two amounts as written; with the same unit on both sides, min ≤ max exactly when the amounts are in order |
| AdvancedSearch.LastRange | advanced_search.py:54-60 | there is a salary range exactly when some range was found; the last match wins |
| AdvancedSearch.SalaryDeleted | advanced_search.py:61-62 | deleting the salary literals never lengthens the main query, and leaves it alone when there are none |
| AdvancedSearch.SalaryDeletedCutsOut | advanced_search.py:61-62 | a salary literal that matches only from i to j is cut out, the text before and after it kept; it is as long as its low amount and unit, the separator, and its high amount and unit |
| AdvancedSearch.DeleteAll | advanced_search.py:64-74 | deleting words never lengthens the main query, and leaves it alone when none of them occurs |
| AdvancedSearch.DeleteAllAround | advanced_search.py:65-75 | deleting a location or company type without overlapping occurrences removes each occurrence, treating the text on either side on its own |
| AdvancedSearch.DeleteAllCutsOut | advanced_search.py:66-68 | a location or company type that occurs exactly once is cut out and the text around it joined |
| AdvancedSearch.LevelOf | advanced_search.py:84-90 | entry exactly when an entry word occurs; senior exactly when a senior word and no entry word occurs; mid exactly when only a mid word occurs; none otherwise |
| AdvancedSearch.ModeOf | advanced_search.py:92-98 | remote exactly when a remote word occurs; onsite exactly when an on-site word and no remote word occurs; hybrid exactly when only a hybrid word occurs; none otherwise |
| AdvancedSearch.Cleaned | advanced_search.py:100-102 | the cleaned main query is never longer and has no whitespace at either end |
| AdvancedSearch.CleanedKeepsClean | advanced_search.py:100-102 | a single-spaced text with no whitespace at its ends and neither 工程師 nor 設計師 is left as it is |
| AdvancedSearch.CleanedDropsEngineer | advanced_search.py:100-102 | such a text followed by a space and 工程師 loses the word and the space |
| AdvancedSearch.CleanedDropsDesigner | advanced_search.py:100-102 | such a text followed by a space and 設計師 loses the word and the space |
| AdvancedSearch.KeptSegments | advanced_search.py:107 | at most one keyword per segment; each is longer than one character with no whitespace at either end |
| AdvancedSearch.KeptSegmentsMembers | advanced_search.py:107 | a text is a main keyword exactly when it is the stripped form, longer than one character, of some segment |
| AdvancedSearch.KeptSegmentsConcat | advanced_search.py:107 | keeping segments commutes with joining segment lists, so the keywords come in segment order |
| AdvancedSearch.ParseQueryOf | advanced_search.py:31-109 | the original query is the stripped one; every main keyword is longer than one character with no whitespace at either end; the level and work type follow the priorities of their word lists in the lowered query; there is a salary range exactly when `re.search` finds one there |
| AdvancedSearch.ParsedMainPlain | advanced_search.py:61-107 | for a query with no salary range, location or company type, the main keywords are the kept segments of the cleaned query, and none when the cleaned query is empty |
| AdvancedSearch.ParsedMainDropsLocation | advanced_search.py:64-68 | with no salary range or company type, a single location occurring once in the query is cut out before cleaning: the main keywords are the kept segments of the cleaned text around it |
| AdvancedSearch.ParsedListsMeaning | advanced_search.py:64-82 | locations and company types are the listed ones in the typed query; skills are the listed ones in the lowered query; skills never repeat |
| AdvancedSearch.ParsedRangeIsLast | advanced_search.py:53-60 | the range kept is that of the last range match in the lowered query |
| AdvancedSearch.ParsedSalaryRange | advanced_search.py:53-60 | a range kept is the range of a match after which `re.search` finds no further salary range |
| AdvancedSearch.LastQueryRangeEndsSearch | advanced_search.py:53-60 | the last match found is a match with amounts and units, and nothing matches after it |
| AdvancedSearch.SpanFindsOneRange | advanced_search.py:53 | in 2-5年 the range pattern finds exactly one match, 2 to 5 with no units |
| AdvancedSearch.SpanIsMidLevel | advanced_search.py:89 | 2-5年 is the mid level |
| AdvancedSearch.ExperienceSpanIsSalaryRange | advanced_search.py:53-90 | the query 2-5年 asks both for mid-level experience and for a salary from 2 to 5 |
| AdvancedSearch.ApplySalaryMatches | advanced_search.py:54-62 | the salary loop keeps the last range and deletes each match's literal from the main query |
| AdvancedSearch.TakeOutWords | advanced_search.py:65-74 | the location and company-type loops record the words found and delete them from the main query |
| AdvancedSearch.FindWords | advanced_search.py:78-82 | the skill loops record the skills the lowered query contains, in table order |
| AdvancedSearch.KeepSegments | advanced_search.py:106-107 | the comprehension keeps the stripped segments longer than one character |
| AdvancedSearch.ParseSearchQuery | advanced_search.py:31-109 | `parse_search_query` step by step gives the parsed query |
| AdvancedSearch.KeywordPoints | advanced_search.py:143-149 | 40 points exactly when the lowered keyword is in the lowered title; 20 exactly when it is not, but is in the lowered description or company; 0 otherwise |
| AdvancedSearch.SkillPoints | advanced_search.py:152-156 | 30 points exactly when the lowered skill is in the lowered description and title, else 0 |
| AdvancedSearch.LocationPoints | advanced_search.py:159-163 | 15 points exactly when the lowered location is in the lowered job location, else 0 |
| AdvancedSearch.CompanyTypePoints | advanced_search.py:173-177 | 5 points exactly when the company type, as written, is in the lowered company and description, else 0 |
| AdvancedSearch.TotalAtMost | advanced_search.py:142-177 | awards of at most cap each sum to at most cap times the number of conditions |
| AdvancedSearch.ExtractSalaryFromJob | advanced_search.py:188-206 | a salary is read exactly when the text is not empty, not 面議 and has a digit; it is the first digit run's value, times 10000 with 萬, else times 1000 with k or K, else as read |
| AdvancedSearch.JobSalaryFromFirstRun | advanced_search.py:194-204 | whatever the first digit run is, the salary read is its value scaled by the text's unit |
| AdvancedSearch.SeparatedSalaryReadsFirstGroup | advanced_search.py:195-204 | 60,000-90,000 reads as 60 |
| AdvancedSearch.SalaryPoints | advanced_search.py:165-170 | 10 points exactly when a range was asked for and the job's salary is read, is not 0, and lies between min and max, both included; else 0 |
| AdvancedSearch.Points | advanced_search.py:142-177 | a job never collects more points than are on offer |
| AdvancedSearch.MaxPoints | advanced_search.py:140-177 | no points are on offer exactly when the query has no keyword, skill, location, range or company type |
| AdvancedSearch.ShareTimesMax | advanced_search.py:183 | the percentage times the points on offer is 100 times the points collected |
| AdvancedSearch.ShareAtLeast | advanced_search.py:183-186 | the percentage reaches t exactly when 100 p ≥ t m |
| AdvancedSearch.ShareAtMost | advanced_search.py:183 | the percentage stays within t exactly when 100 p ≤ t m |
| AdvancedSearch.PointsAtMostMax | advanced_search.py:142-177 | a job never collects more than 40·keywords + 30·skills + 15·locations + 10 for a range + 5·company types |
| AdvancedSearch.ScoreFrom | advanced_search.py:180-186 | 50 with nothing on offer; otherwise 0 exactly when the share is below 30%, and else the share 100·points/max itself; for points within the offer, 0 or a value from 30 to 100 |
| AdvancedSearch.Score | advanced_search.py:137-186 | 50 when nothing is on offer; else 0 or a value from 30 to 100, and the share 100·points/max whenever that share is at least 30% |
| AdvancedSearch.ScoreRange | advanced_search.py:179-186 | 50 when nothing is on offer; otherwise 0 or a value from 30 to 100, 0 exactly when 100·points < 30·max, and else the share 100·points/max |
| AdvancedSearch.FullMatchScoresHundred | advanced_search.py:183 | a job that meets every condition scores 100 |
| AdvancedSearch.ScoreFromGrows | advanced_search.py:153-186 | a met condition worth 30 more never lowers the score |
| AdvancedSearch.MatchingSkillNeverLowersScore | advanced_search.py:152-156 | asking for one more skill that the description or title mentions never lowers the score |
| AdvancedSearch.MatchingSkillAddsPoints | advanced_search.py:152-156 | a matching skill adds 30 both to the points collected and to the points on offer |
| AdvancedSearch.ScoreKeywords | advanced_search.py:143-149 | the keyword loop awards 40 for a title hit, else 20 for a description or company hit |
| AdvancedSearch.ScoreMentions | advanced_search.py:152-177 | each mention loop adds its weight for every condition the text contains |
| AdvancedSearch.CalculateJobScore | advanced_search.py:137-186 | `_calculate_job_score`, loop by loop, gives the score defined from points and points on offer |
| AdvancedSearch.Kept | advanced_search.py:123-130 | no more jobs than given; each kept entry is a given job with its own score, which is positive |
| AdvancedSearch.KeptMembers | advanced_search.py:125-130 | a scored job is kept exactly when it is one of the jobs, with its own score, and that score is positive |
| AdvancedSearch.FilterJobsMeaning | advanced_search.py:121-135 | the result is sorted by falling relevance, holds exactly the kept jobs as often as they occur, and keeps the input order among equal scores |
| AdvancedSearch.FilterJobsOf | advanced_search.py:121-135 | the result is sorted by falling relevance and is a permutation of the kept jobs |
| AdvancedSearch.FilterJobs | advanced_search.py:121-135 | scoring, keeping the positive ones and the stable sort give the filtered list |
| AdvancedSearch.Appended | advanced_search.py:238-242 | one suggestion per word: the query, a space, the word |
| AdvancedSearch.Prepended | advanced_search.py:246 | one suggestion per word: the word, a space, the query |
| AdvancedSearch.SkillKeywordsLowerCase | advanced_search.py:12-20 | every skill is written in lower case, so lowering it in the suggestion loop changes nothing |
| AdvancedSearch.AllText | advanced_search.py:223-225 | the text holds each job's title, a space and its description |
| AdvancedSearch.CollectText | advanced_search.py:223-225 | the text loop joins the title, a space, the description and a space, for each job |
| AdvancedSearch.FindSkills | advanced_search.py:228-232 | the skill loop finds the skills that occur in the lowered text, in table order |
| AdvancedSearch.SuggestionsOf | advanced_search.py:218-248 | four to six suggestions, each the query and a word joined by a space, in one order or the other |
| AdvancedSearch.SkillsIn | advanced_search.py:227-232 | the skills found in the text of the results, each once |
| AdvancedSearch.TopOf | advanced_search.py:234-237 | at most three skills; skills found once each give the first three in the order found |
| AdvancedSearch.SuggestRelatedSearches | advanced_search.py:218-248 | `suggest_related_searches` step by step gives the suggestion list |
| AdvancedSearch.SuggestionsShape | advanced_search.py:241-248 | at most six suggestions; with no skill in the results, the query with 台北 and 新竹, then 新鮮人 and 資深 before the query |
| AdvancedSearch.TopSkillsLeadSuggestions | advanced_search.py:228-238 | each skill is found once, so the three most common are the first three found, and they lead the list |
| UserManagement.WithUser | user_manager.py:71-88 | a new user gets both stamps set to now, counts 0, no preferred keywords and the given info; a known user changes only `last_interaction`; nothing else changes |
| UserManagement.WithFavoriteCount | user_manager.py:111-112 | sets one known user's favourite count and leaves every other user alone |
| UserManagement.FavoriteAdded | user_manager.py:90-115 | the favourite is always appended to the loaded list, the count is the new length, and `add_user`'s change is not in the saved copy |
| UserManagement.FavoriteAddedIs | user_manager.py:99-113 | the three field updates together are the data `add_favorite` saves |
| UserManagement.WithoutJob | user_manager.py:123-126 | exactly the entries with another job id are kept |
| UserManagement.WithoutJobConcat | user_manager.py:123-126 | the filter works piece by piece, so the entries kept stay in their order |
| UserManagement.WithoutAbsentJob | user_manager.py:123-126 | a list without the job is left unchanged |
| UserManagement.FavoriteRemoved | user_manager.py:117-135 | every entry with that job id is removed, the rest stay, the count is the new length, and nothing else changes |
| UserManagement.RemoveFavoriteIdempotent | user_manager.py:117-135 | removing a job twice is the same as removing it once |
| UserManagement.RemoveAfterAdd | user_manager.py:90-135 | removing right after adding takes away that job, and only that job |
| UserManagement.FindJob | user_manager.py:151-156 | the first job with that id, or none exactly when no job has it |
| UserManagement.SearchJob | user_manager.py:151-156 | the inner loop with `break` finds the first job with that id |
| UserManagement.FavoriteJobsStep | user_manager.py:146-156 | one more favourite adds its job, if it has one |
| UserManagement.FavoriteJobsOf | user_manager.py:146-156 | at most one job per favourite |
| UserManagement.FavoriteJobsSound | user_manager.py:146-156 | every job reported is in the job list, and some favourite names it with that stamp |
| UserManagement.FavoriteJobsComplete | user_manager.py:146-156 | when every favourite's job exists, there is exactly one job per favourite, in favourite order |
| UserManagement.FavoriteJobsMeaning | user_manager.py:137-160 | at most one job per favourite; each is a listed job named by a favourite with its stamp; exactly one per favourite, in order, when all exist |
| UserManagement.Recent | user_manager.py:182 | `[-50:]` keeps the newest 50 records |
| UserManagement.FirstMatch | user_manager.py:201-206 | the first entry matching the keyword ignoring case, or none exactly when no entry matches |
| UserManagement.Counted | user_manager.py:199-213 | the first matching entry goes up by exactly one and gets the new stamp, the rest stay; with no match a new entry with count 1 is appended |
| UserManagement.PreferredAfter | user_manager.py:215-217 | at most ten entries, the first ones of the list sorted by falling count |
| UserManagement.PreferredAfterSorted | user_manager.py:193-218 | the entries kept are sorted by falling count; the sort keeps every entry and leaves equal counts in their previous order; with ten or fewer nothing is dropped |
| UserManagement.HistoryAfter | user_manager.py:168-182 | the user's history gets the record appended and cut to the newest 50, and a new user is appended to the history keys |
| UserManagement.UsersAfterSearch | user_manager.py:185-189 | no user is added or removed, a known searching user has one search more, and every other user is unchanged |
| UserManagement.SearchCounted | user_manager.py:185-189 | users are neither added nor removed; a user in the loaded copy gets one more search and updated keywords, and nothing else changes; an absent user stays absent |
| UserManagement.SearchRecorded | user_manager.py:162-191 | the saved history and users are the updated ones, built from the copy loaded before `add_user`, and favourites stay |
| UserManagement.RecentAppend | user_manager.py:179-182 | after a search the history has at most 50 records, the new one last, preceded by the newest old ones in order |
| UserManagement.RecordSearchOthers | user_manager.py:168-182 | nobody else's history changes |
| UserManagement.StatsOf | user_manager.py:220-237 | None exactly for an unknown user; the search count is the history length, not the stored counter |
| UserManagement.StatsAfterSearch | user_manager.py:162-237 | after a search the stats count one more search, up to the 50 the history keeps |
| UserManagement.LoweredKeywords | user_manager.py:246 | each search record gives its lowered keyword, in order |
| UserManagement.AllKeywords | user_manager.py:243-246 | a keyword is collected exactly when it is the lowered keyword of some search in some user's history |
| UserManagement.AllKeywordsStep | user_manager.py:244-246 | one more user adds their lowered keywords |
| UserManagement.TallyKeywordStep | user_manager.py:245-248 | counting one more search bumps its lowered keyword |
| UserManagement.PopularOf | user_manager.py:250-252 | at most limit pairs, and no more than there are distinct keywords |
| UserManagement.PopularKeywordsMeaning | user_manager.py:239-252 | at most limit pairs by falling count; no keyword twice; each with its number of searches ignoring case; a keyword left out is searched no more often than one kept; with a large enough limit every keyword is there |
| UserManagement.UserManager.constructor | user_manager.py:14-33 | a missing document starts empty, a present one is kept |
| UserManagement.UserManager.LoadUserData | user_manager.py:35-41 | reading gives the saved document |
| UserManagement.UserManager.SaveUserData | user_manager.py:43-51 | writing replaces the saved document and reports success |
| UserManagement.UserManager.AddUser | user_manager.py:71-88 | the saved document becomes the one with the user added or stamped |
| UserManagement.UserManager.AddFavorite | user_manager.py:90-115 | the saved document becomes the stale copy with the favourite appended, and the result is true |
| UserManagement.UserManager.RemoveFavorite | user_manager.py:117-135 | true exactly when the user has a favourites entry; then the job is removed, otherwise nothing changes |
| UserManagement.UserManager.GetUserFavorites | user_manager.py:137-160 | the favourite jobs of the user in favourite order, or none for a user without favourites |
| UserManagement.UserManager.RecordSearch | user_manager.py:162-191 | the saved document becomes the stale copy with the search recorded and counted |
| UserManagement.UserManager.GetUserStats | user_manager.py:220-237 | the stats of the saved document |
| UserManagement.UserManager.GetPopularKeywords | user_manager.py:239-252 | the counting loops and the sort give the popular keywords |
| UserManagement.AppendSearch | user_manager.py:168-182 | creating the history, appending and keeping 50 give the new histories |
| UserManagement.CountSearch | user_manager.py:185-189 | counting the search and updating the keywords give the new users |
| UserManagement.UpdatePreferredKeywords | user_manager.py:193-218 | the match loop, the append, the stable sort and the cut give the new keyword list |
| Crawler.DatabaseComplete | crawler.py:13-229 | every category has titles, companies, salaries, locations and descriptions to choose from |
| Crawler.GenericCategory | crawler.py:265-272 | the template has every list, and every title contains the keyword |
| Crawler.ExactCategory | crawler.py:248-252 | the first category named like the keyword, or none exactly when no name equals it |
| Crawler.PartialCategory | crawler.py:255-262 | the first category matching in part, or none exactly when none matches |
| Crawler.MatchedCategory | crawler.py:244-272 | the chosen category always has every list to choose from |
| Crawler.ExactMatchChosen | crawler.py:248-252 | a category named like the lowered keyword is the one chosen |
| Crawler.DatabaseNamesDistinct | crawler.py:15-207 | no two categories share a name |
| Crawler.ExactUnique | crawler.py:248-252 | with distinct names, the category with that name is the one found |
| Crawler.PartialMatchChosen | crawler.py:255-262 | without a name match, the first category in table order that matches in part is chosen |
| Crawler.PartialFirst | crawler.py:255-262 | the first entry matching in part is the one found |
| Crawler.GenericChosen | crawler.py:265-272 | when nothing matches, the generic template is used |
| Crawler.Names | crawler.py:249 | the category names, in table order |
| Crawler.ProductManagerKeyword | crawler.py:248-252 | the keyword 產品經理 picks its own category |
| Crawler.NoPartialMatch | crawler.py:257-260 | no partial match when no first character of one side occurs in the other |
| Crawler.FinancialAnalystKeyword | crawler.py:255-262 | 財務分析師 is a title of both the data-analyst and the accounting categories, and selects the earlier one |
| Crawler.FindExact | crawler.py:248-252 | the exact-match loop finds the first category of that name |
| Crawler.FindPartial | crawler.py:255-262 | the partial-match loop finds the first category matching in part |
| Crawler.MatchCategory | crawler.py:244-272 | exact match, then partial match, then the template |
| Crawler.SearchPrefix | crawler.py:293-299 | each platform's search page is an https address that ends in '=', ready for the keyword |
| Crawler.SearchPrefixesDistinct | crawler.py:294-299 | the three platforms have three different search addresses |
| Crawler.SearchUrl | crawler.py:293-299 | the link is the platform's search page followed by the quoted keyword, and unquoting that part gives back the keyword's UTF-8 bytes |
| Crawler.LogoUrl | crawler.py:301-305 | the logo address is the placeholder service followed by the colour, and it ends with the company's first character, or C for no company |
| Crawler.JobId | crawler.py:308 | every generated id starts with zero_dep_ |
| Crawler.JobIdInjective | crawler.py:308 | two jobs generated in the same second with different indices get different ids |
| Crawler.GenerateJob | crawler.py:280-322 | job i draws its title, company, salary and description from the category, uses platform i mod 3, takes the given location or one from the list, and links to its platform's search |
| Crawler.GenerateFrom | crawler.py:275-324 | `limit` jobs (none for a limit below one), job i generated as described |
| Crawler.GenerateJobsByKeyword | crawler.py:241-324 | `limit` jobs from the matched category, job i on platform i mod 3, with tags the lowered keyword and 零依賴生成 |
| Crawler.AllGeneratedAppend | crawler.py:275-324 | appending job n of a generation to its first n jobs keeps every job as generated |
| Crawler.GeneratedIdsDistinct | crawler.py:308 | the jobs of one generation have different ids |
| Crawler.SearchAllPlatforms | crawler.py:231-239 | three jobs per platform and limit, generated as `generate_jobs_by_keyword` does |
| Crawlr.CleanText | crawlr.py:22-26 | the cleaned text is never longer and never starts with whitespace |
| Crawlr.NonSpace | crawlr.py:26 | the non-whitespace characters of a text, in order |
| Crawlr.NonSpaceConcat | crawlr.py:26 | the non-whitespace characters of a concatenation are those of each part, in order |
| Crawlr.NonSpaceOfSpaces | crawlr.py:26 | a text of whitespace has no non-whitespace characters |
| Crawlr.NonSpaceStrip | crawlr.py:26 | stripping either end keeps every non-whitespace character |
| Crawlr.NonSpaceCollapse | crawlr.py:26 | collapsing whitespace keeps every non-whitespace character |
| Crawlr.NonSpaceMember | crawlr.py:26 | a non-whitespace character is in a text exactly when it is among its non-whitespace characters |
| Crawlr.CleanTextKeepsText | crawlr.py:22-26 | `clean_text` changes only whitespace: the other characters stay, in order |
| Crawlr.CleanTextTrimmed | crawlr.py:22-26 | the result has no whitespace at either end |
| Crawlr.CleanTextSingleSpaced | crawlr.py:22-26 | every whitespace character left is a single plain space |
| Crawlr.CleanTextOfClean | crawlr.py:22-26 | a trimmed, single-spaced text is its own clean form |
| Crawlr.CleanTextIdempotent | crawlr.py:22-26 | cleaning twice is cleaning once |
| Crawlr.SameTextHasDigit | crawlr.py:38 | texts with the same non-whitespace characters both have a digit or both lack one |
| Crawlr.CleanTextHasDigit | crawlr.py:35-38 | cleaning keeps whether a text has a digit |
| Crawlr.DeleteKeepsDigit | crawlr.py:34 | deleting digit-free words keeps a digit of the text |
| Crawlr.WordMatchHasNoDigit | crawlr.py:34 | a match of a digit-free word covers no digit |
| Crawlr.DeleteKeepsOnlyText | crawlr.py:34 | deletion only keeps characters of the text |
| Crawlr.SalaryWordsDigitFree | crawlr.py:34 | none of 月薪, 年薪, 時薪, 待遇, 薪資, NT$, $ has a digit |
| Crawlr.DeleteSalaryWordsHasDigit | crawlr.py:34 | deleting the salary words neither adds nor removes digits |
| Crawlr.ExtractSalary | crawlr.py:28-40 | the result is 面議 or a text with a digit |
| Crawlr.ExtractSalaryNegotiable | crawlr.py:28-40 | `extract_salary` says 面議 exactly for a text without a digit, the empty text included |
| Crawlr.ExtractSalaryClean | crawlr.py:34-39 | otherwise it returns clean text with a digit in it |
| Crawlr.ExtractSalaryKeepsText | crawlr.py:33-39 | for a text with a digit, the salary holds the same non-whitespace characters as the text with its salary words deleted |
| Crawlr.SalaryWordMatchesFront | crawlr.py:34 | at a salary word, the alternation of salary words matches exactly that word |
| Crawlr.LeadingSalaryWordDropped | crawlr.py:34 | a leading salary word is deleted whole, and deletion goes on right after it |
| Crawlr.CakeresumeJobs | crawlr.py:193-227 | exactly one sample job, titled keyword + 工程師, on CakeResume, tagged CakeResume and the keyword |
| Crawlr.NoSalaryWordAt | crawlr.py:34 | no salary word starts at a character that starts none |
| Crawlr.FigureRangeChars | crawlr.py:207 | the characters of "low - high", by position |
| Crawlr.RangeCharStartsNone | crawlr.py:34 | a space, digit, ',' or '-' starts no salary word |
| Crawlr.FigureRangeCharset | crawlr.py:207 | "low - high" is made of spaces, digits, ',' and '-' |
| Crawlr.FigureRangeSingleSpaced | crawlr.py:207 | "low - high" is single-spaced |
| Crawlr.NoSalaryWordStart | crawlr.py:34 | a text where no character starts a salary word has nothing deleted |
| Crawlr.FigureRangeNoSalaryWord | crawlr.py:207 | "low - high" holds no salary word |
| Crawlr.FigureRangeKept | crawlr.py:28-40 | `extract_salary` keeps a range written "low - high", such as the sample's "60,000 - 90,000", as it is |

## Left out

- Text.Lower: models `str.lower()` on ASCII letters only; other cased scripts are kept as they are. Every keyword the core compares against is ASCII or CJK, which has no case.
- Text.IsDigit: `\d` and `str.isdigit()` are taken to mean ASCII digits; the other Unicode digits Python accepts are not modelled.
- jieba segmentation is a parameter. Its dictionary and algorithm are foreign code. No property depends on how it segments.
- Floating point: the relevance score is an exact real, and `float('inf')` as a missing maximum never arises, because every parsed range has both ends. IEEE rounding of `score / max_score * 100` is not modelled.
- Files:
  - `init_files`, `load_*` and `save_*` read and write JSON files.
  - Here the user document and the job list are fields of `UserManager`.
  - The JSON decode error and the save failure path are not modelled, so `SaveUserData` always succeeds.
  - The `settings` key is never read and is not modelled.
- Missing keys: records read through `.get()` are modelled with every field present, except the favourites, history and keyword-list defaults the code relies on.
- Clocks: `datetime.now()` and `time.time()` are parameters. The source reads the clock once per record, so stamps within one call may differ; the model uses one value per call.
- Randomness: `random.choice` and the `hash()`-picked logo colour are nondeterministic choices from their lists, stated as membership, because `hash()` of a string varies between runs.
- `cleanup_old_data` and `export_user_data` are left out: they parse dates and copy data for export.
- `generate_search_summary` and the unused constants are left out. These are `salary_keywords` in `advanced_search.py` and `salary_patterns` in `job_condition_guide.py`; they only feed presentation text or are never read. The same goes for the segmentation of the lowered input in `parse_natural_language_conditions`, whose result `_extract_job_title` ignores.
- Presentation is left out: `generate_clarification_message`, `_generate_confirmation_message` and `create_condition_quick_replies` build text and LINE widgets. The model's replies carry only the action and the conditions.
- Other crawlers: `crawl_104_jobs`, `crawl_1111_jobs`, `JobCrawler.search_all_platforms`, `delay_random` and `save_jobs_to_file` are HTTP, HTML parsing, sleeps and file output.
- Crawlr.CleanText: takes a string, so `clean_text(None) == ""` is not modelled; `extract_salary` tests for a falsy text before it cleans, so None never reaches `clean_text` from there.
- In `crawl_cakeresume_jobs`, the `try`/`except` and the `print` calls are left out, because nothing in the sample can raise.
- `ZeroDependencyCrawler.search_all_platforms` accepts `salary_min` and `salary_max` but never uses them. The model accepts and ignores them too.
- `app.py`, `flex_message_templates.py`, `notification_system.py` and `keep_alive_system.py` are left out. They are the LINE webhook, message widgets, scheduled threads and keep-alive pings.
- `test_condition_guide` and `test_crawler` are demonstration functions that print; they are left out.
