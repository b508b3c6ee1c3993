# shopware-inci in Dafny

A Dafny model of the rules at the heart of the `CodematicInci` Shopware plugin,
a catalog of cosmetic ingredients (INCI entries). The plugin offers five console
commands (`add`, `generate`, `show`, `remove` and `clear`), a service that asks the
OpenAI chat-completions endpoint for ingredient content, and a storefront detail
page for each ingredient.

The model has these parts:

- **Strings.** Strings are byte sequences (`PhpString`). The module has PHP's
  `trim`, `empty`, `str_contains`, single-pass `str_replace`, `explode`/`implode`
  and decimal integer text.
- **The catalog.** The ingredient catalog is a `Repository` object (`InciCatalog`).
  It holds a map from id to record, with every field of `InciEntity` nullable, and
  a ghost log of the writes it received. `update` is a partial update that a value
  of the wrong type rejects as a whole.
- **The commands.** Each command is a method over the repository. Its contract
  states the outcome for every guard and the exact new catalog. `Consistent`
  (every record has a name and the slug derived from it, no two records share a
  slug) is preserved by every command.
- **The AI service.** `OpenAIService` is a class. Its HTTP client is an oracle
  giving the outcome of the n-th POST, and its configuration, prompt files and
  JSON decoder are values it is built with. The retry loop is proved against the
  function `Retry` over the outcomes the endpoint has in store. Lemmas about
  `Retry` give the first-answer rule, the bound on the number of POSTs and the
  linear backoff schedule. Every generator method states its result, the
  payloads it POSTs and the sleeps it asks for in terms of that function.
- **Generation.** The `generate` command is proved against `Generate`, a
  function of what the service is built with (`EnvOf`): the four steps run in
  order, each from the POST after the last one before it, then the
  general-fields call. The update the command writes is built from those
  results.
- **The detail page.** The page loader finds the active record with a given slug.
  It fills the meta title with three sequential replacements and the meta
  description by truncation or from a template.

The model follows the code as written, also where its comments or its apparent intent say otherwise:

- The backoff after a transport error is linear, 2 × attempt seconds, as written,
  although a comment calls it exponential.
- A malformed response uses up an attempt without any sleep.
- The bullet that `clear` prints before each listed ingredient is, byte for byte,
  the UTF-8 bullet encoded twice: `C3 A2 E2 82 AC C2 A2`.
  `ClearCommand.Bullet` uses those bytes. The `show` command's bullet is the
  plain three-byte one.

## Model

| member | source | states |
|---|---|---|
| PhpString.TrimBytesSlice | src/Command/InciAddCommand.php:89 | `trim($s, $chars)` is a slice of the input; only bytes of the strip set are cut from either end |
| PhpString.TrimBytesIdempotent | src/Command/InciAddCommand.php:43 | trimming twice is trimming once |
| PhpString.TrimBytesNoop | src/Command/InciAddCommand.php:43 | a string that neither starts nor ends with a stripped byte is returned unchanged |
| PhpString.TrimBytesKeeps | src/Service/OpenAIService.php:162 | trimming brings in no byte the string did not have |
| PhpString.ContainsIffOccurs | src/Service/OpenAIService.php:139 | `str_contains` holds exactly when the needle occurs at some index |
| PhpString.ContainsNeedsByte | src/Service/OpenAIService.php:139 | a needle with a byte the haystack lacks is not contained |
| PhpString.ReplaceAllAbsent | src/Service/OpenAIService.php:121 | a subject without the search string is returned unchanged |
| PhpString.ReplaceAllIdentity | src/Service/OpenAIService.php:121 | replacing the search string by itself changes nothing |
| PhpString.ReplaceAllFirst | src/Service/OpenAIService.php:121 | the first occurrence is replaced, and the search resumes after it; the replacement is not searched again |
| PhpString.ReplaceAllPast | src/Storefront/Page/Inci/InciDetailPageLoader.php:50-54 | a byte that starts no match is kept, and the search moves on from the next byte |
| PhpString.ReplaceAllSkip | src/Storefront/Page/Inci/InciDetailPageLoader.php:50-54 | a subject whose only candidate start is not a match is left alone |
| PhpString.ReplaceAllWhole | src/Storefront/Page/Inci/InciDetailPageLoader.php:50-54 | a subject equal to the search string becomes the replacement |
| PhpString.JoinExplode | src/Command/InciShowCommand.php:122 | joining the pieces of `explode` with the delimiter gives back the string |
| PhpString.ExplodeJoin | src/Command/InciShowCommand.php:122 | exploding a join of delimiter-free pieces gives back the pieces |
| PhpString.NatTextValue | src/Command/InciRemoveCommand.php:96 | reading back the decimal text of a number gives the number |
| InciCatalog.ApplyUpdates | src/Command/InciGenerateCommand.php:122 | a partial update succeeds exactly when every value fits its field's type; the fields named take the new values, every other field, name, slug and active included, keeps its value |
| InciCatalog.FindByName | src/Command/InciGenerateCommand.php:135-143 | `findIngredient`: returns a record whose name equals the name, or null exactly when there is none |
| InciCatalog.ListIds | src/Command/InciClearCommand.php:40-42 | an unfiltered search returns every id once, and its total is the number of records |
| InciCatalog.Repository.Create | src/Command/InciAddCommand.php:60-67 | `create` adds exactly the record under the fresh id and logs the write |
| InciCatalog.Repository.Update | src/Command/InciGenerateCommand.php:122 | `update` stores the partial update when it is accepted, keeps the catalog when it is rejected, and logs the write either way |
| InciCatalog.Repository.Delete | src/Command/InciRemoveCommand.php:69-71 | `delete` removes exactly the given ids and keeps every other record unchanged |
| AddCommand.CollapseHyphensFacts | src/Command/InciAddCommand.php:88 | collapsing hyphen runs leaves no "--". It keeps the first byte, the letters and digits and the `[a-z0-9-]` alphabet, and it is the identity when there is no "--" |
| AddCommand.HyphenateKeepsAlnums | src/Command/InciAddCommand.php:87 | replacing bytes outside `[a-z0-9-]` by '-' keeps the letters and digits, in order |
| AddCommand.TrimHyphensFacts | src/Command/InciAddCommand.php:89 | trimming hyphens from a collapsed string of slug bytes gives slug shape and keeps the letters and digits |
| AddCommand.SlugShape | src/Command/InciAddCommand.php:83-92 | a derived slug has only bytes of `[a-z0-9-]`, no "--", and no '-' at either end |
| AddCommand.SlugKeepsAlnums | src/Command/InciAddCommand.php:86-89 | the slug's letters and digits are those of the lowercased name, in order |
| AddCommand.SlugEmptyIff | src/Command/InciAddCommand.php:83-92 | the slug is empty exactly when the name has no ASCII letter or digit |
| AddCommand.SlugOfSlug | src/Command/InciAddCommand.php:83-92 | a string of slug shape is its own slug |
| AddCommand.SlugIdempotent | src/Command/InciAddCommand.php:83-92 | `createSlug` applied to its own output changes nothing |
| AddCommand.SlugOfShaped | src/Command/InciAddCommand.php:86-89 | when the lowercased, hyphenated name already has slug shape, that is the slug |
| AddCommand.SlugExample | src/Command/InciAddCommand.php:34 | "Pentylene Glycol" becomes "pentylene-glycol" |
| AddCommand.ConsistentNamesUnique | src/Command/InciAddCommand.php:52-56 | in a consistent catalog equal names mean the same record, since equal names give equal slugs |
| AddCommand.AddPreservesConsistent | src/Command/InciAddCommand.php:52-67 | adding a record with the derived slug, when that slug is not taken, keeps the catalog consistent |
| AddCommand.Execute | src/Command/InciAddCommand.php:43-67 | fails without any write on an empty trimmed name or a slug already taken; otherwise creates exactly one record with the trimmed name, its slug and active = not `--inactive`; consistency is preserved |
| OpenAI.ConfigKeysWellFormed | src/Service/OpenAIService.php:95-107 | every template's config key starts with the plugin prefix, so the guard always passes; no two templates share a key or a prompt file |
| OpenAI.ResolvePrompt | src/Service/OpenAIService.php:104-119 | a truthy config value wins, otherwise a truthy prompt file, otherwise no prompt |
| OpenAI.FillPromptWithoutPlaceholder | src/Service/OpenAIService.php:121 | a prompt without `{INGREDIENT_NAME}` is sent unchanged |
| OpenAI.FillPromptAround | src/Service/OpenAIService.php:121 | the placeholder is replaced by the name in one pass, and text the name brings in is not searched again |
| OpenAI.BuildPayload | src/Service/OpenAIService.php:128-145 | one user message. A model name containing "gpt-5", "o1" or "o3" gets `max_completion_tokens` 2000 and no temperature; any other gets `max_tokens` 2000 and temperature 0.7 |
| OpenAI.PayloadHasOneTokenLimit | src/Service/OpenAIService.php:139-145 | the token limit goes under exactly one of its two names, and a temperature is sent exactly with `max_tokens` |
| OpenAI.ClassicModelExample | src/Service/OpenAIService.php:139 | "gpt-4o" is not a reasoning model |
| OpenAI.Gpt5ModelExample | src/Service/OpenAIService.php:139 | "gpt-5-mini" is a reasoning model |
| OpenAI.O3ModelExample | src/Service/OpenAIService.php:139 | "o3-mini" is a reasoning model |
| OpenAI.RetryPasses | src/Service/OpenAIService.php:161-179 | an attempt without an answer, other than a last transport error, hands over to the next attempt with one more POST |
| OpenAI.RetryPosts | src/Service/OpenAIService.php:147-183 | at most one POST per attempt; the result is null exactly when no attempt is answered, and then every attempt was made |
| OpenAI.RetryAnswer | src/Service/OpenAIService.php:161-163 | an answer is the trimmed content of the first answered attempt, which is the last attempt made |
| OpenAI.RetryResult | src/Service/OpenAIService.php:147-183 | the POST bound, the null case and the first-answer rule together |
| OpenAI.RetrySleeps | src/Service/OpenAIService.php:174-179 | the sleeps are exactly 2 × (i + 1) seconds after each attempt i that failed in transport and was not the last, in increasing order; a malformed response causes no sleep |
| OpenAI.RetryDefaultSchedule | src/Service/OpenAIService.php:126-183 | with three attempts: at most three POSTs, and only sleeps of 2 or 4 seconds |
| OpenAI.RetryAllTransportErrors | src/Service/OpenAIService.php:167-179 | three transport errors give three POSTs, sleeps of 2 then 4 seconds, and null |
| OpenAI.FirstDigitRun | src/Service/OpenAIService.php:48 | the first match of `(\d+)` is a non-empty digit run, and there is none exactly when the text has no digit |
| OpenAI.ExtractRating | src/Service/OpenAIService.php:48-53 | the rating read from an answer is always in 1..3 |
| OpenAI.FirstDigitRunOfTrim | src/Service/OpenAIService.php:48 | trimming the answer never changes its first digit run |
| OpenAI.RatingOfFirstNumber | src/Service/OpenAIService.php:48-50 | an answer whose first number is n gives n when it is 1, 2 or 3 and null otherwise, so "10" gives null rather than 1 |
| OpenAI.RatingWithoutDigits | src/Service/OpenAIService.php:53 | an answer without a digit gives no rating |
| OpenAI.DecodeGeneralFields | src/Service/OpenAIService.php:82-89 | the general fields are the decoded array, or null when the answer is not valid JSON or not an array |
| OpenAI.HttpClient.Post | src/Service/OpenAIService.php:149-156 | one POST is logged and meets the outcome the endpoint has for it |
| OpenAI.OpenAIService.MakeApiCall | src/Service/OpenAIService.php:126-184 | the result, the payloads POSTed (the same payload, once per attempt made) and the sleeps are exactly those `Retry` gives for the outcomes in store |
| OpenAI.CallBounds | src/Service/OpenAIService.php:92-183 | a template call without a prompt makes no POST, sleeps never and gives null; with one it makes at most three POSTs, each sending the filled prompt |
| OpenAI.OpenAIService.GenerateFromTemplate | src/Service/OpenAIService.php:92-124 | no prompt means null and no request; otherwise the result, the payloads POSTed and the sleeps are those the retry loop gives for the outcomes in store from the next POST on |
| OpenAI.OpenAIService.GenerateDescription | src/Service/OpenAIService.php:24-27 | the `description` template's call: its result, the payloads POSTed and the sleeps, as for any template |
| OpenAI.OpenAIService.GenerateMainFunctions | src/Service/OpenAIService.php:29-32 | the `main_functions` template's call: its result, the payloads POSTed and the sleeps |
| OpenAI.OpenAIService.GenerateSafetyInformation | src/Service/OpenAIService.php:34-37 | the `safety` template's call: its result, the payloads POSTed and the sleeps |
| OpenAI.OpenAIService.GenerateRating | src/Service/OpenAIService.php:39-54 | the `rating` template's call; null when it gives null, otherwise the rating extracted from the answer, always in 1..3; the payloads POSTed and the sleeps are the call's |
| OpenAI.OpenAIService.GenerateGeneralFields | src/Service/OpenAIService.php:57-90 | the `general_fields` template's call; null without a prompt or an answer, otherwise the decoded array; the payloads POSTed and the sleeps are the call's |
| GenerateCommand.HasGeneratedContentFields | src/Command/InciGenerateCommand.php:145-150 | main functions never count as content; a rating of 0 counts; no description, safety text or rating means no content |
| GenerateCommand.NewRecordHasNoContent | src/Command/InciGenerateCommand.php:62-66 | a record fresh from Add has no content, so generating never asks to overwrite it |
| GenerateCommand.StepValueFacts | src/Command/InciGenerateCommand.php:80-88 | a text step keeps its call's answer, an empty one included, and yields nothing exactly when the call gave null; the rating step yields a number in 1..3 exactly when the answer holds one |
| GenerateCommand.GenerateField | src/Command/InciGenerateCommand.php:80-85 | one step calls its field's generator once: the value, the payloads POSTed and the sleeps are those `StepRun` gives from the next POST on; the value has its field's type, a rating is in 1..3 |
| GenerateCommand.RunStepsBounds | src/Command/InciGenerateCommand.php:77-93 | the steps give one result each and at most three POSTs each; a step whose template has no prompt yields nothing |
| GenerateCommand.AssembleFacts | src/Command/InciGenerateCommand.php:77-93 | a step's field is in the update exactly when the step produced a value, an empty string included, and carries that value |
| GenerateCommand.GenerateContent | src/Command/InciGenerateCommand.php:77-93 | the loop's step results, payloads POSTed and sleeps are those `RunSteps` gives for the four steps in order, each starting at the POST after the last one before it; the update is the one `Assemble` builds from those results |
| GenerateCommand.GenerateAll | src/Command/InciGenerateCommand.php:77-98 | the four steps, then the general-fields call from the next POST on: the step results, the general fields, the payloads and the sleeps are those `Generate` gives |
| GenerateCommand.StepsAndMappingPartition | src/Command/InciGenerateCommand.php:70-107 | the generated fields and the general fields are disjoint |
| GenerateCommand.CopyGeneralFields | src/Command/InciGenerateCommand.php:109-113 | a general field is copied exactly when its JSON key is set and not null, with that value; other fields are kept |
| GenerateCommand.MergeGeneral | src/Command/InciGenerateCommand.php:100-113 | general fields join only for a non-empty array; generated fields are never overridden |
| GenerateCommand.FieldOrderRanked | src/Command/InciGenerateCommand.php:156-166 | the summary order lists every field once |
| GenerateCommand.SummaryValueTruncates | src/Command/InciGenerateCommand.php:171-175 | a string up to 100 bytes is shown whole; a longer one as its first 100 bytes and "..." |
| GenerateCommand.PresentMembers | src/Command/InciGenerateCommand.php:168-169 | the fields summarised are exactly the listed fields the update sets |
| GenerateCommand.PresentRanked | src/Command/InciGenerateCommand.php:168 | the summarised fields keep the label order |
| GenerateCommand.SummaryOfPresent | src/Command/InciGenerateCommand.php:168-178 | one row per summarised field, with its label and cell |
| GenerateCommand.RankedDistinct | src/Command/InciGenerateCommand.php:168 | a ranked field list holding exactly some fields has one entry for each |
| GenerateCommand.Summary | src/Command/InciGenerateCommand.php:152-183 | the summary lists every field of the update and no other, once each, in label order |
| GenerateCommand.GenerationSummary | src/Command/InciGenerateCommand.php:168-178 | the loop builds exactly that summary |
| GenerateCommand.UpdatePreservesConsistent | src/Command/InciGenerateCommand.php:122 | a content update never changes a name or slug, so it keeps the catalog consistent |
| GenerateCommand.Regenerate | src/Command/InciGenerateCommand.php:68-132 | the step results, the general fields, the payloads and the sleeps are those `Generate` gives for the endpoint's outcomes; a step's field joins the update exactly when the step yielded a value, a general field exactly when the answer is a non-empty array that sets its key; with no field it fails without a write, otherwise it writes once and shows the summary when the write is accepted |
| GenerateCommand.Execute | src/Command/InciGenerateCommand.php:44-132 | fails with no request, no sleep and no write on an empty or unknown name. Succeeds with nothing sent, slept or written when the user declines to overwrite content. Otherwise the results, requests and sleeps are those `Generate` gives, the update is built from them as in `Regenerate`, and consistency is preserved |
| ShowCommand.InfoRowsOfShown | src/Command/InciShowCommand.php:58-95 | row i of the table is the row of the i-th shown field |
| ShowCommand.ShownInfoFacts | src/Command/InciShowCommand.php:58-95 | Name comes first and Active last, and the rows come in the fixed order |
| ShowCommand.ShownInfoMember | src/Command/InciShowCommand.php:61-93 | a row is in the table exactly when its field is set (truthy text, non-null flag or rating) |
| ShowCommand.InfoRowsShape | src/Command/InciShowCommand.php:59-95 | the first row is the name and the last the active flag. Origin appears exactly when `natural` is non-null, as Natural or Synthetic. Safety Rating appears exactly when the rating is non-null |
| ShowCommand.RatingLabelFacts | src/Command/InciShowCommand.php:85-93 | 1, 2 and 3 are labelled by name with the number in brackets; every other value is "Unknown" |
| ShowCommand.AppendRow | src/Command/InciShowCommand.php:61-93 | one conditional append: the row is added only when shown |
| ShowCommand.BasicInfo | src/Command/InciShowCommand.php:58-95 | the appends build exactly the table `InfoRows` gives |
| ShowCommand.NonEmptyFacts | src/Command/InciShowCommand.php:125 | the filter keeps exactly the entries that are not PHP-empty |
| ShowCommand.ResourceListFacts | src/Command/InciShowCommand.php:120-129 | every line is the non-empty trim of a comma-separated entry, and every such entry gives a line |
| ShowCommand.ResourceLineClean | src/Command/InciShowCommand.php:122-126 | a resource line has no surrounding whitespace and no comma |
| ShowCommand.ResourceListRoundTrip | src/Command/InciShowCommand.php:120-129 | resources stored as a comma-joined list of clean entries print back as those entries, in order |
| ShowCommand.TrimmedLines | src/Command/InciShowCommand.php:123-128 | the loop prints the non-empty trimmed entries, in order |
| ShowCommand.ResourceLines | src/Command/InciShowCommand.php:120-129 | the resources section is exactly `ResourceList` |
| ShowCommand.Execute | src/Command/InciShowCommand.php:35-138 | fails with no output on an empty or unknown name; otherwise prints the table, the resources and "/inci/" + slug. It cannot change the catalog, having no modifies clause |
| RemoveCommand.TriStateRoundTrip | src/Command/InciRemoveCommand.php:97-98 | Yes, No and Not set tell the three states of a flag apart |
| RemoveCommand.RatingCellRoundTrip | src/Command/InciRemoveCommand.php:96 | a positive rating prints as "n/3" and reads back; the cell is "Not set" exactly for null or 0 |
| RemoveCommand.RemovePreservesConsistent | src/Command/InciRemoveCommand.php:69-71 | deleting records keeps the catalog consistent |
| RemoveCommand.Execute | src/Command/InciRemoveCommand.php:42-99 | fails without deleting on an empty or unknown name. Otherwise it shows the eight detail rows and succeeds. It deletes nothing when the user declines, and otherwise exactly the record found |
| ClearCommand.ListLines | src/Command/InciClearCommand.php:55-57 | one line per fetched record, in order |
| ClearCommand.ListLinesAll | src/Command/InciClearCommand.php:53-57 | the listing names every record and nothing else |
| ClearCommand.Preview | src/Command/InciClearCommand.php:53-60 | up to 20 records are all listed, one line per record; more are only counted |
| ClearCommand.CollectIds | src/Command/InciClearCommand.php:80-83 | the ids collected are exactly the fetched ids, in order |
| ClearCommand.Execute | src/Command/InciClearCommand.php:40-91 | always succeeds and reports the record count. An empty catalog lists and deletes nothing. Up to 20 records are listed one line each, every record once; more are only counted. A "no" to either question deletes nothing. Otherwise one delete of every fetched id leaves the catalog empty |
| DetailPageLoader.FindActiveBySlug | src/Storefront/Page/Inci/InciDetailPageLoader.php:30-37 | returns an active record with the slug, or null exactly when there is none; an inactive record is never returned |
| DetailPageLoader.ShowUrlOpensDetail | src/Command/InciShowCommand.php:133 | in a consistent catalog, the URL printed for an active record opens exactly that record's page |
| DetailPageLoader.ConfigOr | src/Storefront/Page/Inci/InciDetailPageLoader.php:44-47 | an unset or empty setting falls back to the default; a non-empty default gives a non-empty value |
| DetailPageLoader.TemplateRestFacts | src/Storefront/Page/Inci/InciDetailPageLoader.php:47 | "{polishName}" does not match inside "{polishNameBrackets}" |
| DetailPageLoader.TitleNameStep | src/Storefront/Page/Inci/InciDetailPageLoader.php:50-54 | the first search replaces only the leading "{name}" of the default template |
| DetailPageLoader.TitlePolishNameStep | src/Storefront/Page/Inci/InciDetailPageLoader.php:50-54 | the second search finds nothing after a name without '{' |
| DetailPageLoader.TitleBracketsStep | src/Storefront/Page/Inci/InciDetailPageLoader.php:49-54 | the third search puts the brackets text in place |
| DetailPageLoader.DefaultMetaTitle | src/Storefront/Page/Inci/InciDetailPageLoader.php:47-54 | with the default template: name, " (P)" when the Polish name P is set, then " - opis i działanie" |
| DetailPageLoader.NameMeetsLaterSearch | src/Storefront/Page/Inci/InciDetailPageLoader.php:50-54 | the searches run one after another, so a name that is itself "{polishName}" is replaced by the Polish name |
| DetailPageLoader.TruncateMetaFacts | src/Storefront/Page/Inci/InciDetailPageLoader.php:59-61 | at most 160 bytes; a short text is kept; a long one keeps 157 bytes and ends in "..." (exactly 160); truncating again changes nothing |
| DetailPageLoader.DefaultMetaDescription | src/Storefront/Page/Inci/InciDetailPageLoader.php:64-71 | without a description or a configured text, the default sentence around the name |
| DetailPageLoader.DescribedMetaBounded | src/Storefront/Page/Inci/InciDetailPageLoader.php:58-63 | a record with a description gets a meta description of at most 160 bytes |
| DetailPageLoader.DetailPage.SetInci | src/Storefront/Page/Inci/InciDetailPageLoader.php:39 | sets the ingredient and nothing else |
| DetailPageLoader.DetailPage.SetMetaTitle | src/Storefront/Page/Inci/InciDetailPageLoader.php:56 | sets the title and nothing else |
| DetailPageLoader.DetailPage.SetMetaDescription | src/Storefront/Page/Inci/InciDetailPageLoader.php:63-72 | sets the description and nothing else |
| DetailPageLoader.Load | src/Storefront/Page/Inci/InciDetailPageLoader.php:25-80 | the page shows the active record with the slug, if any, with the title and description the templates give. Without one it has no ingredient and keeps the generic meta information |

## Left out

- HTTP transport is not modelled: the Guzzle client, the bearer header, the 60-second timeout and which statuses throw. Each POST is an oracle outcome: an answer, a body without content, or a transport exception.
- Logging and `sleep` are not modelled. Requested sleeps are kept as a ghost record of seconds.
- `json_decode` of the API body and of the general-fields answer is a parameter, `jsonDecode`. A general-fields answer that decodes to a scalar is treated as null; PHP would raise a TypeError under strict types.
- `SystemConfigService` and the prompt files are maps given to the service and to the page loader. The sales-channel scoping of settings is not modelled.
- The database is an in-memory map with exact-match search. Not modelled: the case-insensitive `utf8mb4_unicode_ci` collation, the UNIQUE key, result order (`first()` may pick any match), column defaults, and the 255-byte limit of string fields.
- InciCatalog.Repository.Update: a rejected write stands for the exception the data layer throws. Only a value of the wrong type is rejected.
- AddCommand.Execute: the random UUID is a parameter, required to be unused.
- GenerateCommand.Execute: the step results are ghost outputs; they exist only to state how the update follows from the endpoint's outcomes.
- ShowCommand.Execute: the description and safety sections are not modelled, because `formatText` uses `strip_tags`, `html_entity_decode` and `wordwrap`. Console styling, titles and messages are left out too.
- RemoveCommand.RatingCellRoundTrip: a rating of 0 and a null rating both print "Not set", so the cell cannot tell them apart; the round trip covers positive ratings.
- `(int)` on the rating digits saturates at `PHP_INT_MAX` in PHP, but the model reads the digits as an unbounded number. Both give null, since neither is in 1..3.
- The temperature 0.7 is kept in tenths (7) to avoid a real number.
- `strip_tags` is a parameter of the page loader.
- Not modelled: the list page loader, the controller (its 404 for a page without an ingredient is only noted in `Load`'s contract), the page-loaded event, the migrations, the plugin class and the entity definition.
