# SIRE converter core, modelled in Dafny

`sire_converter.py` turns a hotel's guest list (a "police report" spreadsheet) into
the tab-separated file that Colombia's migration authority, Migración Colombia,
accepts through its SIRE system. The converter does the following:

- It detects which input column holds which SIRE field. This is `ColumnDetector`: three passes
  over the column names and, for the critical fields, the column contents.
- It processes each row in `SireConverter._process_guest`:
  - It reads the row's cells through the resolvers: `CountryCodes`,
    `ColombianCities`, `DocumentTypes`, `DateParser`, `TextNormalizer`,
    `InferenceEngine` and `DocumentValidator`.
  - It sets Colombian guests aside.
  - It raises when a date cell is NaT.
  - It checks the required fields.
- `SireConverter.convert` then sorts each row into the `valid`, `skipped`,
  `colombianos` and `duplicados` counters. It drops repeated
  document/date/movement keys and emits one 13-field line per written guest.

The model has one module per class of the source:

- `CountryCodes` (country_codes.dfy): the 654-entry country table.
- `ColombianCities` (colombian_cities.dfy): the 109-entry city table.
- `DocumentTypes` (document_types.dfy).
- `ColumnDetector` (column_detector.dfy).
- `DateParser` (date_parser.dfy). It includes `strptime` for the eight formats, written as the
  backtracking regex match Python compiles them to.
- `TextNormalizer` (text_normalizer.dfy).
- `InferenceEngine` (inference_engine.dfy).
- `DocumentValidator` (document_validator.dfy).
- `SireConverter` (sire_converter.dfy), which also declares `GuestRecord`. The converter
  object is a class whose fields are updated in place.

Shared support lives in four small modules:

- `Strings`: Python's string built-ins.
- `Cells`: pandas cell values (`None`, NaN, NaT, text, integers and timestamps) and
  `is_nan_or_empty`.
- `Tables`: ordered dictionaries.
- `Records`: `Confidence` and `FieldResult`.

`PassProperties` (pass_properties.dfy) states what a whole run promises, against a
verdict for each row.

The pure resolvers are functions. The places where the source loops are methods
proved against those functions:

- the column detector's passes and its content count;
- the required-field loop;
- the message loops;
- the row loop of `convert`.

Three resolvers have a definition as written and a corrected one, described under
"## Findings": `CountryCodes`, `DocumentTypes` and `DateParser`. A value of type
`Records.Resolvers` chooses between them. `_process_guest` and its properties take that
choice as a parameter, so each property holds for the code as written and for the
corrected code. The converter class runs the resolvers as written, as the source does.

Where the comments of the source and its code disagree, the model follows the code:

- Lines 546-547 of `sire_converter.py` say the partial city stage only accepts a text
  contained in a city. The code at line 548 tests the other direction: a city contained
  in the text. `ColombianCities.CityMatch` models line 548, and
  `ColombianCities.CaliforniaIsColombian` shows the consequence.
- Line 591 calls the document-type loop an exact match. The test at line 593 is containment
  in either direction. `DocumentTypes.MatchAsWritten` models the containment test, and
  "## Findings" gives its consequence.

## Model

| member | source | states |
|---|---|---|
| `Calendar.DaysInMonth` | sire_converter.py:897 | the month lengths `strptime` checks against, 28 to 31 days, with February following the Gregorian leap rule |
| `Calendar.Format` | sire_converter.py:902 | `strftime('%d/%m/%Y')` is always 10 characters, with slashes at positions 2 and 5 |
| `Cells.StrippedTextNotBlank` | sire_converter.py:38-48 | a non-empty text with no surrounding whitespace is not blank for `is_nan_or_empty` |
| `ColombianCities.CityMatch` | sire_converter.py:538-551 | a city is found exactly when its normal form is a key, or is at least 5 characters long and holds a key; the code is the first equal key's code, otherwise the first contained key's code in table order; a code is digits |
| `ColombianCities.IsColombianCity` | sire_converter.py:524-551 | a blank value is `(False, "")`; otherwise the answer is `CityMatch` on the normalised text |
| `ColombianCities.ColombiaCodeIfCity` | sire_converter.py:554-565 | the result is ("169", HIGH) exactly when the text is a Colombian city, and ("", NONE) otherwise |
| `ColombianCities.CaliforniaIsColombian` | sire_converter.py:544-549 | the partial stage looks for a key inside the text, so "CALIFORNIA" (holding "CALI") is a Colombian destination |
| `ColombianCities.CityWordIsColombian` | sire_converter.py:554-565 | any word of ASCII capitals that the city stage accepts gives ("169", HIGH) |
| `ColombianCities.MatchedCityIsColombian` | sire_converter.py:562-564 | a non-blank cell whose normal form is a city gives ("169", HIGH) |
| `ColumnDetector.Similarity` | sire_converter.py:708-721 | `_similarity` lies in [0, 1], and is 1 for texts equal once lower-cased |
| `ColumnDetector.SimilaritySymmetric` | sire_converter.py:708-721 | word similarity does not depend on the order of its two arguments |
| `ColumnDetector.SimilarityOne` | sire_converter.py:708-721 | two different texts have similarity 1 exactly when, lower-cased, they have the same non-empty set of words |
| `ColumnDetector.Ratio` | sire_converter.py:742 | the containment share is non-negative, at most 1 when the pattern is the shorter text, and 1 for equal lengths |
| `ColumnDetector.RatioOne` | sire_converter.py:742 | a share of 1 means the two lengths are equal |
| `ColumnDetector.Score` | sire_converter.py:740-747 | one pattern's contribution lies in [0, 1.3] and is at least the word similarity |
| `ColumnDetector.Best` | sire_converter.py:734-747 | the best score over the patterns seen so far bounds every pattern's score, and is 0 or one of them |
| `ColumnDetector.FuzzyMatch` | sire_converter.py:724-749 | a match happens exactly when the stripped, lower-cased name is a pattern or the score reaches the threshold; the score lies in [0, 1.3] and is 1 for an exact name |
| `ColumnDetector.ContainedNameScoresOnePointThree` | sire_converter.py:741-743 | a name that occurs inside a pattern without being one scores 1.3, because the 0.3 bonus is added to a share of 1 |
| `ColumnDetector.ExactNameIsHigh` | sire_converter.py:786-789 | a column whose stripped, lower-cased name is one of a field's names is a first-pass hit |
| `ColumnDetector.ContentMatches` | sire_converter.py:838-844 | the number of sample values matched by some content pattern is at most the sample size |
| `ColumnDetector.Sample` | sire_converter.py:835 | `dropna().head(10)` gives at most 10 values |
| `ColumnDetector.FirstFree` | sire_converter.py:779-792 | the inner loop's choice is the first column from position `j` on that is unused, not excluded and accepted, and every column before it is not |
| `ColumnDetector.FindColumn` | sire_converter.py:779-792 | the inner column loop of a pass returns exactly `FirstFree` |
| `ColumnDetector.FirstFreeHits` | sire_converter.py:789-792 | a column the pass may give to the field ends the search there |
| `ColumnDetector.FirstFreeSkips` | sire_converter.py:780-785 | a used, excluded or rejected column is passed over |
| `ColumnDetector.AcceptsColumn` | sire_converter.py:786-788 | each pass's acceptance test on one column is decided exactly as `Accepts` says: score at least 0.8, then a match at threshold 0.4, then at least half the sample matching |
| `ColumnDetector.CountMatches` | sire_converter.py:838-844 | the count loop computes `ContentMatches` of the sample |
| `ColumnDetector.Pass` | sire_converter.py:778-813 | one pass over the fields leaves the detected map and the used columns as `RunPass` describes |
| `ColumnDetector.DetectColumns` | sire_converter.py:762-855 | `detect_columns` returns `Detect(ds)` |
| `ColumnDetector.SortedFieldsInOrder` | sire_converter.py:773-776 | the stable sort by priority leaves the declaration order, with `tipo_documento` first and `numero_documento` second |
| `ColumnDetector.StableByPriority` | sire_converter.py:773-776 | the two document fields followed by fields of the default priority come out of the sort unchanged |
| `ColumnDetector.DocumentPatternsCollapse` | sire_converter.py:635-639 | the three document-number content patterns together accept exactly the texts of 6 to 12 letters or digits |
| `ColumnDetector.AllMissingPresent` | sire_converter.py:835 | a column whose cells are all missing gives an empty sample |
| `ColumnDetector.EmptyColumnIsClaimed` | sire_converter.py:846-852 | an empty sample meets `0 >= 0`, so the third pass claims a free, non-excluded, all-missing column for the field, at LOW |
| `ColumnDetector.ClaimSound` | sire_converter.py:790-791 | claiming a free, justified input column for an undetected field keeps the detector's invariant |
| `ColumnDetector.StepSound` | sire_converter.py:779-792 | one field's step of any pass keeps the invariant |
| `ColumnDetector.RunPassSound` | sire_converter.py:778-813 | a whole pass keeps the invariant |
| `ColumnDetector.DetectSound` | sire_converter.py:762-855 | every detected column is an input column, and no column serves two fields; `numero_documento` never gets a column named with "tipo"; HIGH means a name score of at least 0.8, MEDIUM a fuzzy match at 0.4, LOW a content claim; `nacionalidad` is never LOW |
| `ColumnDetector.FieldsByPriority` | sire_converter.py:614-700 | only `tipo_documento` and `numero_documento` declare a priority (1 and 2); every later field takes the default 99 |
| `CountryCodes.NormalizeText` | sire_converter.py:403-405 | the normal form keeps only capitals, accented capitals and whitespace |
| `CountryCodes.NoPunctuation` | sire_converter.py:404 | a normal form holds no hyphen, full stop or apostrophe |
| `CountryCodes.NormalizeTextIdempotent` | sire_converter.py:403-405 | normalising a normal form again changes nothing |
| `CountryCodes.NormalFormStripped` | sire_converter.py:405 | a normal form has no surrounding whitespace |
| `CountryCodes.WordStage` | sire_converter.py:416-422 | the per-word stage gives the first word, in order, of at least 3 letters that occurs in some key, and the first key in table order that holds it; nothing when no word occurs in any key |
| `CountryCodes.MatchIn` | sire_converter.py:407-424 | there are four results: HIGH when an equal key exists, with the first such key's code; MEDIUM when no equal key exists but some key is related; LOW when no key is related but a word hits; otherwise ("", NONE) |
| `CountryCodes.GetCodeAsWritten` | sire_converter.py:393-424 | as written, a blank value gives ("", NONE), and HIGH means the normal form is literally a key |
| `CountryCodes.NormalizeKeys` | sire_converter.py:93-390 | the table with its keys in normal form: same length and codes, each key normalised |
| `CountryCodes.GetCode` | sire_converter.py:393-424 | with normalised keys, a blank value gives ("", NONE), and HIGH means the text's normal form equals some key's normal form |
| `CountryCodes.NormalizedExact` | sire_converter.py:407-409 | against normalised keys, the exact stage hits exactly when some key's normal form is the text |
| `CountryCodes.GetCodeWith` | sire_converter.py:393-424 | the country resolver a conversion runs is `get_code` as written or corrected, as chosen; either way a blank value gives ("", NONE) and a code is digits |
| `CountryCodes.ResolveNormalForm` | sire_converter.py:403-424 | resolving a country's non-empty normal form gives the same answer as resolving the country |
| `CountryCodes.SameNormalFormSameCode` | sire_converter.py:403-424 | two non-blank texts with the same normal form resolve to the same code and confidence |
| `CountryCodes.FirstEntry` | sire_converter.py:95 | the table starts with "ESTADOS UNIDOS", code 249 |
| `CountryCodes.EmptyNormalFormIsAMatchAsWritten` | sire_converter.py:411-414 | as written, a non-blank text whose normal form is empty, such as "123", gives ("249", MEDIUM): no key is empty, and the empty string occurs in every key, so the first key decides |
| `CountryCodes.EmptyNormalFormIsAMatch` | sire_converter.py:411-414 | the same holds with normalised keys: ("249", MEDIUM) |
| `CountryCodes.EmptyTextIsFirstKey` | sire_converter.py:407-414 | the empty text gives ("249", MEDIUM), as written and with normalised keys |
| `CountryCodes.NumeralNormalFormEmpty` | sire_converter.py:403-405 | a printed integer normalises to the empty string |
| `CountryCodes.IntegerIsACountryAsWritten` | sire_converter.py:400-414 | as written, every non-zero integer cell resolves to ("249", MEDIUM), the United States |
| `CountryCodes.IntegerIsACountry` | sire_converter.py:400-414 | with normalised keys, every non-zero integer cell resolves to ("249", MEDIUM) |
| `CountryCodes.IntegerNeverColombia` | sire_converter.py:427-430 | `is_colombia`, as written or corrected, is false for every integer cell: zero gives no code and any other integer gives 249 |
| `CountryCodes.NormalFormOfWord` | sire_converter.py:403-405 | a word of ASCII capitals is its own normal form |
| `CountryCodes.PunctuatedKeysNeverExact` | sire_converter.py:407-409 | a key holding a hyphen, full stop or apostrophe is never the normal form of any input |
| `CountryCodes.GuineaBissauAsWritten` | sire_converter.py:407-409 | as written, no input's normal form equals the key "GUINEA-BISSAU" (entry 527) |
| `CountryCodes.KeyTextRecognised` | sire_converter.py:407-409 | with normalised keys, every non-blank key typed as the table writes it is found at HIGH, with the code of the first key sharing its normal form; that is its own code when no earlier key shares it |
| `CountryCodes.FirstNormalKey` | sire_converter.py:407-409 | against normalised keys, a text that is some key's normal form is found at HIGH with the code of the first key of that normal form |
| `CountryCodes.GuineaBissauCorrected` | sire_converter.py:407-409 | with normalised keys, the text "GUINEA-BISSAU" is found at HIGH |
| `CountryCodes.KeyedIsHigh` | sire_converter.py:407-409 | with normalised keys, a non-blank text whose normal form equals a key's normal form is found at HIGH |
| `CountryCodes.EmptyTextMatchesFirstKey` | sire_converter.py:411-414 | the empty normal form occurs in every key, so past the exact stage the first key decides at MEDIUM |
| `DocumentTypes.KeywordCode` | sire_converter.py:597-606 | the keyword fallback always gives a SIRE document code, at MEDIUM, or passport at LOW |
| `DocumentTypes.MatchAsWritten` | sire_converter.py:590-606 | the lookup as written gives HIGH exactly when some key contains the text or is contained in it |
| `DocumentTypes.GetCodeAsWritten` | sire_converter.py:584-606 | `get_code` as written: a blank value is passport at LOW; the result is always a known code with a confidence |
| `DocumentTypes.GetCodeWith` | sire_converter.py:584-606 | the document resolver a conversion runs is `get_code` as written or corrected, as chosen; either way the code is a SIRE document code with a confidence, and a blank value is passport at LOW |
| `DocumentTypes.Match` | sire_converter.py:590-606 | with the exact match first, a text equal to a key gets that key's code at HIGH; any other text is resolved as written |
| `DocumentTypes.GetCode` | sire_converter.py:584-606 | the corrected `get_code`: a blank value is passport at LOW; the result is always a known code with a confidence |
| `DocumentTypes.KeysRecognised` | sire_converter.py:571-581 | with the exact match first, every key gets its own code at HIGH |
| `DocumentTypes.PassportKeywordsUnreachable` | sire_converter.py:597-598 | the first keyword family never decides: "PASAP", "PASSPO" and "PP" all hit a key at HIGH first |
| `DocumentTypes.PptReadAsPassport` | sire_converter.py:591-594 | as written, "PPT" is read as a passport ("3", HIGH), because the key "PP" comes first; with the exact match first it is ("52", HIGH) |
| `DocumentTypes.TableCodesKnown` | sire_converter.py:571-581 | every code in the table is one of 3, 5, 46, 10 and 52 |
| `DocumentTypes.KeysDistinct` | sire_converter.py:571-581 | no key occurs twice, so the first equal key is the dictionary's entry |
| `DocumentTypes.RelatedGivesHigh` | sire_converter.py:591-593 | a text related to some key, by containment either way, is resolved at HIGH |
| `DocumentTypes.FirstRelatedDecides` | sire_converter.py:591-593 | when key `k` is related to the text and no earlier key is, key `k`'s code is the answer, at HIGH |
| `DocumentTypes.KeywordFallbackNotPassport` | sire_converter.py:597-606 | the keyword fallback never gives passport at MEDIUM to a text without the passport keywords |
| `DocumentValidator.ValidateDocument` | sire_converter.py:1028-1054 | a document is accepted exactly when it is non-empty, its stripped, upper-cased form has 5 to 20 characters, and with hyphens removed it is not one repeated character; each rejection carries its own message; the null-token branch is unreachable |
| `DocumentValidator.DistinctSingleton` | sire_converter.py:1051 | `len(set(s)) == 1` holds exactly for one repeated character |
| `DocumentValidator.RepeatedDigitRejected` | sire_converter.py:1050-1052 | a number of 5 to 20 copies of one digit is rejected as a pattern |
| `DocumentValidator.EightOnesRejected` | sire_converter.py:1050-1052 | "11111111" is rejected as a repeated pattern |
| `DocumentValidator.HyphensAccepted` | sire_converter.py:1051 | a run of 5 to 20 hyphens passes, since removing the hyphens leaves no character |
| `DocumentValidator.FiveHyphensAccepted` | sire_converter.py:1051 | "-----" is accepted as a document number |
| `DateParser.Strptime` | sire_converter.py:897 | `strptime` succeeds only with a date that exists |
| `DateParser.FirstAccepted` | sire_converter.py:895-904 | the format loop stops at the first format that reads the text with a year in range, and every earlier format fails |
| `DateParser.DateText` | sire_converter.py:887-892 | the date text is the stripped text, cut at the first whitespace when it holds a space |
| `DateParser.ReadText` | sire_converter.py:894-906 | the reading is empty at LOW exactly when no format accepts; otherwise it is HIGH or MEDIUM |
| `DateParser.Parse` | sire_converter.py:873-906 | `parse` raises exactly for NaT, with NaT's message; a missing value or null spelling gives ("", NONE) |
| `DateParser.ParseCorrected` | sire_converter.py:887-906 | trying the whole text before cutting it raises exactly for NaT, and reads non-text cells as `parse` does |
| `DateParser.ParseWith` | sire_converter.py:887-906 | the date parser a conversion runs is `parse` as written or corrected, as chosen; either way only NaT raises, with NaT's message, and a reading holds no tab |
| `DateParser.InferFromAge` | sire_converter.py:909-918 | an integer age from 0 to 120 gives a date at LOW; a NaN raises; anything else gives ("", NONE) |
| `DateParser.StrptimeFormat` | sire_converter.py:862 | `strptime` of a date printed dd/mm/yyyy with "%d/%m/%Y" gives the date back |
| `DateParser.ParseFormatted` | sire_converter.py:895-902 | round trip: a date's SIRE form whose year passes the guard is read back as the same text at HIGH |
| `DateParser.ReparseOutput` | sire_converter.py:873-906 | parsing is idempotent on its output: a date it produced reads back unchanged at HIGH |
| `DateParser.AmbiguousDayFirst` | sire_converter.py:861-865 | "01/02/2024" is 1 February: day-first is tried before month-first |
| `DateParser.ParseFirstWord` | sire_converter.py:892 | text after the first space does not change the reading, unless the first word is a null spelling |
| `DateParser.TimeOfDayDropped` | sire_converter.py:892 | a time of day after a SIRE date is dropped before the formats are tried |
| `DateParser.InferredDateReadsBack` | sire_converter.py:909-918 | a date inferred from an age reads back unchanged at HIGH when its year passes the guard |
| `DateParser.MonthFirstFallback` | sire_converter.py:865 | "12/31/2024" is read by the US format, at MEDIUM |
| `DateParser.ShortTextRejected` | sire_converter.py:861-870 | a text under five characters is read by no format |
| `DateParser.NoSeparatorRejected` | sire_converter.py:862-867 | a text without `/`, `-` or `.` can only be read by the month-name formats |
| `DateParser.MonthNameCutOff` | sire_converter.py:892 | as written, "31 Dec 2024" is cut to "31" and gives ("", LOW) |
| `DateParser.StrptimeMonthAbbreviation` | sire_converter.py:868 | `strptime` with "%d %b %Y" reads "31 Dec 2024", with any whitespace between its words, as 31 December 2024 |
| `DateParser.MonthNameRead` | sire_converter.py:868 | with the whole text tried first, "31 Dec 2024" is read as "31/12/2024" at MEDIUM |
| `DateParser.MonthNameTabRead` | sire_converter.py:892-903 | as written, a text without an ASCII space is not cut: "31\tDec\t2024" is read by `%d %b %Y` as "31/12/2024" at MEDIUM |
| `DateParser.WholeText` | sire_converter.py:887-892 | a text that `strip()` leaves alone, longer than any null spelling and free of ASCII spaces, is presented to the formats whole |
| `DateParser.MonthAbbreviationText` | sire_converter.py:895-903 | "31 Dec 2024" with any whitespace between its words is first read by `%d %b %Y`, as "31/12/2024" at MEDIUM |
| `DateParser.ParsedNoTab` | sire_converter.py:902 | no reading holds a tab |
| `DateParser.ReadsAt` | sire_converter.py:895-904 | when format `k` is the first to accept with a year in range, the reading is that date printed dd/mm/yyyy, HIGH for the first two formats and MEDIUM after |
| `DateParser.ParseWord` | sire_converter.py:887-897 | a single word that is not a null spelling goes straight to the format loop |
| `TextNormalizer.NormalizeName` | sire_converter.py:925-936 | blank gives ""; otherwise the upper-cased words of the filtered text, joined by single spaces; never a digit |
| `TextNormalizer.SplitTokens` | sire_converter.py:951-964 | no tokens give three empty parts; otherwise the given names, the first surname and the second surname are exactly the tokens in order; a second surname needs at least four tokens |
| `TextNormalizer.SplitFullName` | sire_converter.py:939-964 | a blank value gives three empty parts; otherwise the parts split the words of the normalised name |
| `TextNormalizer.UpperJoin` | sire_converter.py:936 | upper-casing a space-joined list upper-cases each word |
| `TextNormalizer.NormalizeIdempotent` | sire_converter.py:925-936 | normalising a normalised name changes nothing, for text without ÿ |
| `TextNormalizer.YDiaeresisLost` | sire_converter.py:933-936 | "ÿ" normalises to "Ÿ", which a second normalisation deletes |
| `TextNormalizer.NameNoTab` | sire_converter.py:934 | a normalised name holds no tab |
| `TextNormalizer.SplitNoTab` | sire_converter.py:939-964 | no part of a split name holds a tab |
| `TextNormalizer.NameHasNoDigit` | sire_converter.py:933-936 | the character filter keeps no digit, and upper-casing adds none |
| `InferenceEngine.InferCountryCode` | sire_converter.py:971-987 | the code is the country resolver's, one confidence step lower: HIGH becomes MEDIUM, MEDIUM and LOW become LOW, no code gives NONE |
| `InferenceEngine.MatchSeparator` | sire_converter.py:1008-1013 | a separator pattern's groups are returned exactly when the pattern matches |
| `InferenceEngine.SeparatorGroups` | sire_converter.py:1002-1004 | any match has the leading lower-case letters as its first group |
| `InferenceEngine.FirstSeparatorMatch` | sire_converter.py:1008-1015 | the first matching separator pattern, in order, decides; nothing when none matches |
| `InferenceEngine.InferNamesFromEmail` | sire_converter.py:990-1015 | with no `@` the result is ("", "", NONE); the result is LOW exactly when a separator pattern matches the local part, with its two groups upper-cased |
| `InferenceEngine.CamelUnreachable` | sire_converter.py:998-1005 | the camel-case pattern never matches: the local part was lower-cased first |
| `InferenceEngine.DottedAddress` | sire_converter.py:1002 | "given.surname@domain" gives the two names upper-cased, at LOW |
| `InferenceEngine.JohnSmith` | sire_converter.py:993 | "john.smith@mail.com" gives ("JOHN", "SMITH", LOW) |
| `InferenceEngine.MatchCamel` | sire_converter.py:1005 | any match of the camel-case pattern has a lower-case first group followed by one capital and lower-case letters |
| `InferenceEngine.DottedMatch` | sire_converter.py:1002 | the dot pattern splits lower-case `given.surname` into its two names |
| `Records.Downgrade` | sire_converter.py:976 | HIGH becomes MEDIUM, and anything else becomes LOW |
| `SireConverter.Value` | sire_converter.py:1110-1116 | an unmapped field reads `None`; a mapped one reads the row's cell under the mapped label, or `None` without one |
| `SireConverter.DocumentText` | sire_converter.py:1123-1127 | the document is non-empty exactly for a truthy cell whose stripped text is not a null spelling, and is then that stripped text |
| `SireConverter.SurnameFields` | sire_converter.py:1143-1155 | the first surname is HIGH; the second is HIGH when non-empty and NONE otherwise, and is non-empty only with two or more tokens |
| `SireConverter.NameFields` | sire_converter.py:1142-1167 | the full name is split, at MEDIUM and counted as one inference, exactly when there is no given-name column, a full-name column and no surname column; each field is set exactly when its column or the split provides it |
| `SireConverter.NationalityOf` | sire_converter.py:1169-1179 | a direct country code wins; otherwise, with a procedencia column, the code inferred from it; an inference counts once and warns exactly when it finds a code; the code is digits |
| `SireConverter.ProcedenciaOf` | sire_converter.py:1199-1212 | the procedencia code when there is one; otherwise the nationality at LOW, with a warning when the nationality is non-empty; never NONE |
| `SireConverter.DestinoOf` | sire_converter.py:1214-1227 | a Colombian city is 169 at HIGH; otherwise the country code; otherwise 169 at LOW; never empty and always digits |
| `SireConverter.Missing` | sire_converter.py:1239-1241 | there are no `Falta` messages exactly when every required field is set and non-empty |
| `SireConverter.Read` | sire_converter.py:1122-1227 | with the chosen resolvers, the readings hold the row's document, its validation, nationality and names; each date raises exactly when its cell is NaT; the answers are sound: digit codes, tab-free fields, NaT's message |
| `SireConverter.GatheredSound` | sire_converter.py:1122-1227 | every resolver's answer for a row has the properties the assembly relies on: digit country codes, a tab-free document code, tab-free names and dates, NaT's message for a NaT date, a non-empty destination |
| `SireConverter.Assemble` | sire_converter.py:1118-1245 | an invalid document gives a record with only that error; Colombia gives `None`; a NaT date raises NaT's message; a record is valid exactly when it has no errors, and a valid record has every required field, a foreign nationality, a destination and tab-free fields |
| `SireConverter.Prefixed` | sire_converter.py:1289-1290 | each message becomes `Fila <n>: <message>`, in order |
| `SireConverter.LineFields` | sire_converter.py:1301-1315 | a SIRE line has 13 fields: hotel code, city code, the document and the movement type in their places |
| `SireConverter.Outcomes` | sire_converter.py:1279-1281 | with the chosen resolvers, the list holds the outcome of every row, top to bottom |
| `SireConverter.RunThrough` | sire_converter.py:1279-1327 | with the chosen resolvers, the run of `convert` is the loop over the rows' outcomes |
| `SireConverter.DetectColumnMap` | sire_converter.py:1259 | the column map is what `detect_columns` gives for the dataset |
| `SireConverter.NameSection` | sire_converter.py:1142-1167 | the name section computes `NameFields` |
| `SireConverter.NationalitySection` | sire_converter.py:1169-1179 | the nationality section computes `NationalityOf` |
| `SireConverter.CheckRequired` | sire_converter.py:1239-1241 | the required-field loop appends exactly the `Missing` messages |
| `SireConverter.ReadRow` | sire_converter.py:1122-1227 | the cell lookups and resolver calls compute `Read` |
| `SireConverter.AssembleRow` | sire_converter.py:1118-1245 | the control flow over the readings computes `Assemble` |
| `SireConverter.ProcessGuest` | sire_converter.py:1118-1245 | `_process_guest`, with the chosen resolvers, computes the row's outcome and its bumps of `inferidos` |
| `SireConverter.ProcessAt` | sire_converter.py:1281 | row `idx`'s outcome and inference count, with the chosen resolvers, are those the run records for it |
| `SireConverter.Converter.constructor` | sire_converter.py:1060-1080 | the codes given, an empty column map, zeroed counters, no errors or warnings |
| `SireConverter.Converter.ForMedellin` | sire_converter.py:1060 | the default city code is 5001 |
| `SireConverter.Converter.ProcessRow` | sire_converter.py:1281 | the row's outcome, with `inferidos` bumped by its inferences |
| `SireConverter.Converter.Convert` | sire_converter.py:1247-1329 | with the resolvers as written, the lines, counters, errors and warnings are those of the run; total is the row count and the sum of the four counters; one line per valid row |
| `SireConverter.Converter.RunDataset` | sire_converter.py:1279-1327 | the row loop over the whole dataset leaves the state of the run, whose counters sum to the row count |
| `SireConverter.Converter.ConvertRows` | sire_converter.py:1279-1327 | the loop leaves the state of `RunRows` over the outcomes of all rows with the resolvers as written |
| `SireConverter.Converter.ConvertRow` | sire_converter.py:1280-1326 | one iteration, with the resolvers as written, moves the state from that after `idx` rows to that after `idx + 1` |
| `SireConverter.Converter.Admit` | sire_converter.py:1283-1326 | a row's outcome changes the counters, lines, keys, errors and warnings as `Sort` says |
| `SireConverter.Converter.AppendAll` | sire_converter.py:1289-1290 | one row's messages, prefixed, are appended to errors or to warnings, and the other list is unchanged |
| `SireConverter.StepCounts` | sire_converter.py:1283-1326 | one row adds exactly one to one of the four counters, keeps total, and keeps lines and keys in step with `valid` |
| `SireConverter.RunCounts` | sire_converter.py:1268-1327 | after `n` rows, the four counters sum to `n`, total is the row count, and there is one line and one key per valid row |
| `PassProperties.ValidKeys` | sire_converter.py:1294-1298 | every valid record's key among the first rows is remembered |
| `PassProperties.Tally` | sire_converter.py:1283-1326 | a verdict's count among the first `n` rows is at most `n` |
| `PassProperties.RunByVerdict` | sire_converter.py:1279-1327 | after `n` rows, the keys are those of the valid records; the lines, errors and warnings are those of the rows' verdicts, in row order; each counter counts its verdict; `inferidos` sums the inferences |
| `PassProperties.StepByVerdict` | sire_converter.py:1283-1326 | one row moves the verdict state on by its own verdict |
| `PassProperties.KeyFirstWritten` | sire_converter.py:1294-1298 | a remembered key belongs to a written row |
| `PassProperties.FirstOccurrenceWins` | sire_converter.py:1294-1298 | a written row's key belongs to no earlier valid record, and a duplicate's key is that of an earlier written row |
| `PassProperties.DomesticIff` | sire_converter.py:1181-1182 | with the resolvers as written or corrected, a row is set aside as Colombian exactly when its document is valid and its nationality resolves to 169 |
| `PassProperties.RaisedIff` | sire_converter.py:1186-1197 | with the resolvers as written or corrected, a row raises exactly when its document is valid, its guest is foreign and one of its two date cells is NaT; the message is NaT's |
| `PassProperties.ProcessClean` | sire_converter.py:1118-1245 | with the resolvers as written or corrected, given a tab-free document, every valid record has tab-free fields and a foreign nationality |
| `PassProperties.LineReadsBack` | sire_converter.py:1317 | a line of tab-free fields splits back on tabs into its 13 fields |
| `PassProperties.LinesReadBack` | sire_converter.py:1317 | when records are clean, every line written so far splits into 13 fields, with the job's codes and movement and a non-Colombian nationality |
| `PassProperties.RunLinesShaped` | sire_converter.py:1247-1329 | with the resolvers as written or corrected, given tab-free codes and documents, every line of a run splits into 13 fields, with the job's codes and movement and a non-Colombian nationality |
| `PassProperties.AssembleClean` | sire_converter.py:1118-1245 | a record assembled from a tab-free document has tab-free fields and a foreign nationality when valid |
| `PassProperties.LineShaped` | sire_converter.py:1301-1317 | the line of a clean valid record splits into 13 fields with the job's codes and movement and a non-Colombian nationality |

## Left out

- File I/O is not modelled: `read_file`, `save_file`, `convert_file`, the command-line
  entry point and the terminal and web front ends. The model starts from a dataset, given
  as column labels and rows of cells.
- Logging and `get_report` are not modelled: they print and format text and do not affect
  the result.
- The current year, `datetime.now().year`, is a parameter between 1970 and 9998 rather than a
  clock reading.
- Column-detector scores are exact rationals (`real`), not floating point.
- Whitespace is Python's whitespace within Latin-1: tab, line feed, vertical tab, form
  feed, carriage return, U+001C to U+001F, space, U+0085 and U+00A0. Digits are the ASCII
  `0` to `9`. The other Unicode whitespace and decimal digits are not modelled, although
  `str.strip`, `str.split`, `\s` and `\d` also accept them (U+2003 EM SPACE, U+3000, or
  Arabic-Indic digits, for example). So a date text ending in an EM SPACE keeps it in the
  model and reads ("", LOW), where the source strips it and reads the date.
- Cells are `None`, NaN, NaT, text, integers and timestamps. Floats other than NaN are not
  modelled. For example, an integer column with one blank becomes a float column, and
  `str()` then prints a document number as "12345678.0".
- `convert`'s default movement type "E" (sire_converter.py:1247) is not modelled as a
  default: `SireConverter.Converter.Convert` takes the movement as a parameter, and a caller
  that relies on the default passes "E" explicitly.
- Case mapping covers ASCII and Latin-1 (with ß to "SS" and ÿ to "Ÿ") and no other
  Unicode. Month names are the English C-locale ones.
- Duplicate column labels are not modelled: a dataset's labels are distinct.
- The df index is taken to be 0..n-1, as a freshly read file gives.
- `astype(str)` of a timestamp column is taken to print the date as `str()` does.
- `DocumentValidator.PASSPORT_PATTERNS` and the `doc_type` argument of
  `validate_document` are not modelled: the source never uses them.
- A timestamp cell's year is not checked against the 1900 guard: `parse` formats
  timestamps directly, with no guard.
- `SireConverter.ReadRow` evaluates every resolver of a row before the control flow
  decides which results are used. The source stops at the first early return. Every
  resolver is total in the model, so the outcome is the same.
- `SireConverter.Converter.ProcessRow` bumps `inferidos` once, by the row's total
  inferences, after `_process_guest` returns. The source bumps it inside `_process_guest`.
  When a later NaT raises in the same row, the source keeps the earlier bumps, and so does
  the model.
- `PassProperties.LineReadsBack` requires tab-free fields: the source writes a document that
  holds a tab unescaped, so such a line does not split back.
- `PassProperties.RunLinesShaped` requires tab-free codes and documents, for the same
  reason.

## Findings

| source | as written | input that shows it | evidently intended | confidence | as-written member | corrected member |
|---|---|---|---|---|---|---|
| sire_converter.py:590-594 | the "exact match" loop tests containment in table order, so the key "PP" (a passport) catches "PPT" | the document type "PPT" gives ("3", HIGH) | "PPT" is the temporary protection permit, code 52, as its own key says | not executed | `DocumentTypes.PptReadAsPassport` | `DocumentTypes.KeysRecognised` |
| sire_converter.py:403-409 | the input is stripped of `-`, `.` and `'` but the keys are not, so keys such as "GUINEA-BISSAU", "E.E.U.U." and "COTE D'IVOIRE" can never match exactly | the text "GUINEA-BISSAU" misses its own key at the exact stage | every key, typed as the table writes it, is found at HIGH | not executed | `CountryCodes.GuineaBissauAsWritten` | `CountryCodes.GuineaBissauCorrected` |
| sire_converter.py:892 | a text holding an ASCII space is cut at its first whitespace before the formats are tried, so a text such as "31 Dec 2024" never reaches the month-name formats `%d %b %Y` and `%d %B %Y`; a tab- or NBSP-separated text is not cut and can reach them | "31 Dec 2024" gives ("", LOW) | "31 Dec 2024" is read as "31/12/2024" | not executed | `DateParser.MonthNameCutOff` | `DateParser.MonthNameRead` |
