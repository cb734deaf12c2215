# TextToImage command line, modelled in Dafny

TextToImage is a small JavaFX program that renders a line of text with a
chosen font and colours and saves the result as an image. This project
models its command-line core:

- the static fields of the class and their initial values;
- `parseArgs`, the loop that reads the arguments, assigns those fields and
  returns true (go on and render), returns false (a listing or the help was
  printed), or throws;
- the image format taken from the output path;
- the case-insensitive lookup of font weights and postures;
- the choice in `main` between asking for a font by name or by family.

The model has two layers.

- **Specification.** Module `Args` gives the loop as functions:
  - `Step` is one turn of the loop;
  - `Scan` runs the loop from a position;
  - `Parse` runs it from the initial fields.
- **Implementation.** Class `App.TextToImage` holds the static fields as
  fields of an object. Its method `ParseArgs` updates them in a `while` loop
  as the Java code does, and is proved to end in the state and status that
  `Scan` gives.

Module `LastWrites` is an independent reference description. A scan that
returns true leaves each field as the last argument that writes it left it.
The description is proved equal to the scan.

Modules:

- `Wrappers`: the `Option` type.
- `FontStyle`: weights, postures, root-locale upper-casing and the enumeration lookup.
- `OutputFormat`: `lastIndexOf` and the format name.
- `Settings`: the fields as one value, their defaults and the font request.
- `Args`: the scanner as a specification.
- `ArgsProperties`: what the scanner promises, proved.
- `LastWrites`: the reference description and its consequences.
- `App`: the class and its methods.

## Behaviour worth knowing

- `--` is ordinary text: the `default` case makes it the text
  (`ArgsProperties.NoOptionTerminator`).
- An unknown option such as `-x` is not an error: it becomes the text
  (`ArgsProperties.UnknownOptionIsText`).
- The only queries are `--families`, `--names`, `--names-in` and `--help`.
  The first one met returns false at once, and later tokens are never read
  (`ArgsProperties.QueryStops`, `ArgsProperties.NamesInStops`).
- A value token is never read as an option: `-t --help` sets the text to
  `--help` (`ArgsProperties.ValueIsNotScanned`).
- `--names-in` assigns `family` before it returns false, and `-o` assigns
  `output` before its suffix check throws. The outcome therefore carries the
  fields as they stand at the exit (`ArgsProperties.NamesInEndsScan`,
  `ArgsProperties.OutputWithoutDotEndsScan`).

## Model

| member | source | states |
|---|---|---|
| FontStyle.WeightName | TextToImage.java:274-282 | definition: the names of the nine weight constants; its properties are `FontStyle.WeightNamesAreConstantNames` and `FontStyle.ParseWeight` |
| FontStyle.PostureName | TextToImage.java:288-289 | definition: the names of the two posture constants; its properties are `FontStyle.PostureNamesAreConstantNames` and `FontStyle.ParsePosture` |
| FontStyle.UpperChar | TextToImage.java:184 | definition: the root-locale upper case of one character, for the characters listed under "Left out"; its property is `FontStyle.UpperOfCaseVariant` |
| FontStyle.Upper | TextToImage.java:184 | definition: `toUpperCase(Locale.ROOT)` character by character; its property is `FontStyle.UpperOfCaseVariant` |
| FontStyle.ParseWeight | TextToImage.java:184 | the weight is found exactly when the upper-cased token is that constant's name; no constant matches otherwise (the lookup throws) |
| FontStyle.ParsePosture | TextToImage.java:191 | the posture is found exactly when the upper-cased token is that constant's name; none otherwise |
| FontStyle.UpperOfCaseVariant | TextToImage.java:184 | root-locale upper-casing of any spelling that differs from a constant name only in ASCII letter case gives the name |
| FontStyle.WeightNamesAreConstantNames | TextToImage.java:274-282 | every weight name is made of upper-case letters and '_' only |
| FontStyle.PostureNamesAreConstantNames | TextToImage.java:288-289 | every posture name is made of upper-case letters only |
| FontStyle.WeightLookupIgnoresCase | TextToImage.java:184 | `-w` takes each of the nine weight names in any mix of upper and lower case |
| FontStyle.PostureLookupIgnoresCase | TextToImage.java:191 | `-p` takes REGULAR and ITALIC in any mix of upper and lower case |
| OutputFormat.LastIndexOf | TextToImage.java:213 | the result is the position of the last '.', with none after it; -1 exactly when the path has no '.' |
| OutputFormat.FormatName | TextToImage.java:211-216 | no format exactly when the path has no '.'; otherwise the format is the dot-free text after the last '.', and ends the path |
| OutputFormat.FormatNameOfJoin | TextToImage.java:216 | for `base.suffix` with a dot-free suffix, the format is the suffix, whatever the base holds |
| OutputFormat.FormatNameExamples | TextToImage.java:48-49 | the default path "out.png" gives the default format "png"; "a.b.jpg" gives "jpg", "x." gives "", and "out" gives no format |
| Settings.Defaults | TextToImage.java:29-49 | definition: the initial values of the fields; its properties are `App.TextToImage.constructor`, `ArgsProperties.NoArgumentsKeepDefaults` and `LastWrites.UnwrittenKeepDefaults` |
| Settings.FontFor | TextToImage.java:58-62 | definition: by name when `isNameUsed`, by family, weight, posture and size otherwise; its properties are `App.TextToImage.SetupFont` and `LastWrites.FontSelection` |
| Args.Lookup | TextToImage.java:167-235 | definition: the first label in the table equal to the token, or the `default` case; its properties are `ArgsProperties.LookupFirst` and `ArgsProperties.LookupMiss` |
| Args.Classify | TextToImage.java:167-235 | definition: the `switch` on one token; its properties are `ArgsProperties.ClassifyLabel` and `ArgsProperties.ClassifyOther` |
| Args.Step | TextToImage.java:166-236 | a turn goes on exactly when the token is no query and any value it needs is present and accepted; it then moves past the label and its value; a turn that exits never returns true |
| Args.Apply | TextToImage.java:167-236 | the body of a case goes on exactly when the label is no query and its parser accepts the value; an exit never returns true |
| Args.ApplyLookup | TextToImage.java:182-217 | definition: the bodies of `-w`, `-p` and `-o`; its properties are `Args.Apply`, `App.TextToImage.SetLookedUp` and `LastWrites.StepUpdates` |
| Args.ApplyValue | TextToImage.java:168-230 | definition: the bodies of the other cases that read a value; its properties are `Args.Apply`, `App.TextToImage.SetValue` and `LastWrites.StepUpdates` |
| Args.ApplySwitch | TextToImage.java:186-235 | definition: the bodies of the cases that take no value; its properties are `Args.Apply`, `App.TextToImage.SetSwitch` and `LastWrites.StepUpdates` |
| Args.Scan | TextToImage.java:166-238 | definition: the loop from a position, to its end (true) or its first exit; its properties are `ArgsProperties.ReadyIffAllAcceptable`, `ArgsProperties.ScanAppend` and `LastWrites.ScanIsLastWritten` |
| Args.Parse | TextToImage.java:165-239 | definition: `parseArgs` from the initial values; its properties are `ArgsProperties.ParseAppend`, `ArgsProperties.NoArgumentsKeepDefaults` and `LastWrites.ParseIsLastWritten` |
| Args.ScanContinues | TextToImage.java:166 | after a turn that goes on, the loop continues from the next label with the new fields |
| Args.ScanStops | TextToImage.java:221-233 | a turn that returns or throws ends the scan with that outcome |
| ArgsProperties.LookupFirst | TextToImage.java:167-233 | a token equal to the k-th label and to no earlier one selects the k-th case: the first matching label wins |
| ArgsProperties.LookupMiss | TextToImage.java:234-235 | a token equal to no label of the table selects the `default` case |
| ArgsProperties.NoArgumentsKeepDefaults | TextToImage.java:29-49 | with no arguments `parseArgs` returns true with the initial values, and the font is asked for by family "System", NORMAL, REGULAR, size 13 |
| ArgsProperties.ClassifyLabel | TextToImage.java:167-233 | each of the 24 labels selects its own case: the comparison is exact and no two labels are equal |
| ArgsProperties.ClassifyOther | TextToImage.java:234-235 | any token that is no label goes to the `default` case |
| ArgsProperties.TextSpellings | TextToImage.java:168-169 | `-t` and `--text` select the same case |
| ArgsProperties.OutputSpellings | TextToImage.java:209-210 | `-o` and `--output` select the same case |
| ArgsProperties.NoOptionTerminator | TextToImage.java:234-235 | `--` is plain text |
| ArgsProperties.UnknownOptionIsText | TextToImage.java:234-235 | an unknown option `-x` is plain text, not an error |
| ArgsProperties.BoldIsWeightBold | TextToImage.java:186-188 | `--bold` has the same effect as `-w bold` |
| ArgsProperties.ItalicIsPostureItalic | TextToImage.java:193-195 | `--italic` has the same effect as `-p italic` |
| ArgsProperties.StepShift | TextToImage.java:166-236 | a turn reads only its own label and value, wherever they stand in the list |
| ArgsProperties.ScanShift | TextToImage.java:166 | scanning a suffix gives the same outcome whatever tokens precede it |
| ArgsProperties.StepPrefix | TextToImage.java:166-236 | a turn that goes on inside a prefix reads nothing after the prefix |
| ArgsProperties.ScanAppend | TextToImage.java:166 | a scan of `xs + ys` that gets through `xs` continues on `ys` with the fields `xs` left |
| ArgsProperties.ParseAppend | TextToImage.java:165-239 | if `parseArgs(xs)` returns true, then `parseArgs(xs + ys)` is the scan of `ys` from the fields `xs` set |
| ArgsProperties.QueryTurn | TextToImage.java:221-233 | the turn on `--families`, `--names` or `--help` returns false with its listing and leaves the fields unchanged |
| ArgsProperties.QueryEndsScan | TextToImage.java:221-233 | a scan that meets one of those queries ends there with false, whatever follows |
| ArgsProperties.QueryStops | TextToImage.java:221-233 | after arguments that parse, such a query makes `parseArgs` return false with the fields those arguments set |
| ArgsProperties.NamesInEndsScan | TextToImage.java:227-230 | `--names-in F` sets the family to F and ends the scan with false, whatever follows |
| ArgsProperties.NamesInStops | TextToImage.java:227-230 | the same after arguments that parse |
| ArgsProperties.MissingValueFails | TextToImage.java:170 | a label that takes a value, when it is the last argument, throws for the missing value |
| ArgsProperties.OutputWithoutDotEndsScan | TextToImage.java:211-214 | `-o` with a path that has no '.' throws, with `output` already set to the path |
| ArgsProperties.OutputWithoutDotFails | TextToImage.java:211-214 | the same after arguments that parse, whatever follows |
| ArgsProperties.ValueTurn | TextToImage.java:170 | a label that takes a value consumes exactly the next token, and the scan goes on right after it |
| ArgsProperties.ValueIsNotScanned | TextToImage.java:168-171 | the same after arguments that parse: the value is never read as a label |
| ArgsProperties.Heads | TextToImage.java:166-170 | the positions read as labels lie inside the list from the given position on; the first is that position, and there are none only when it is the end of the list |
| ArgsProperties.HeadsChain | TextToImage.java:166-170 | each label position is the previous one plus the tokens its case consumes; the last case's tokens reach the end of the list or want one more |
| ArgsProperties.AllAcceptableCons | TextToImage.java:166 | every label from a position on is acceptable exactly when the first is and all those after it are |
| ArgsProperties.ReadyIffAllAcceptable | TextToImage.java:165-239 | `parseArgs` returns true exactly when every label position is no query and has its value present and accepted |
| ArgsProperties.AcceptableTurn | TextToImage.java:166-236 | after a turn that goes on, all positions are acceptable exactly when those after it are |
| ArgsProperties.RejectedTurn | TextToImage.java:166-236 | a turn that exits leaves a position that is not acceptable, and the scan does not return true |
| ArgsProperties.ReadyConsumesAll | TextToImage.java:237-238 | when `parseArgs` returns true, no query was met and the last case ended exactly at the end of the arguments |
| LastWrites.LastAt | TextToImage.java:166 | the index of the last label position in a given set of cases: it is in the set and none after it is; -1 when there is none |
| LastWrites.LastAtCons | TextToImage.java:166 | putting a position in front moves the last writer one place, or makes the new position the writer when there was none |
| LastWrites.LastHead | TextToImage.java:166 | the token position of the last case in the set, if any, lies inside the list and is in the set |
| LastWrites.LastHeadCons | TextToImage.java:166 | a position put in front becomes the last writer only when there was none |
| LastWrites.LastWritten | TextToImage.java:166-236 | definition: each field as its last writer among the label positions left it, or its start value; its properties are `LastWrites.ScanIsLastWritten` and `LastWrites.ParseIsLastWritten` |
| LastWrites.StepUpdates | TextToImage.java:167-236 | a turn that goes on writes exactly the fields its case writes, and no other |
| LastWrites.ScanIsLastWritten | TextToImage.java:165-239 | a scan that returns true leaves every field as its last writer left it, or as it was |
| LastWrites.ParseIsLastWritten | TextToImage.java:165-239 | when `parseArgs` returns true, every field holds what the last argument that writes it wrote, or its initial value |
| LastWrites.UnwrittenKeepDefaults | TextToImage.java:29-49 | a field no argument writes keeps its initial value: "System Regular", "System", by family, size 13, BLACK, WHITE, "out.png" and "png" |
| LastWrites.LastTextWins | TextToImage.java:168-171 | the text is the value of the last `-t` or `--text` or the last plain token, whichever comes last; "Hello, world!" when there is none |
| LastWrites.FontSelection | TextToImage.java:58-62 | the font is asked for by name exactly when the last `-n` comes after the last `-f`, with that `-n`'s value; otherwise by the last family, "System" by default |
| LastWrites.OutputAndFormatAgree | TextToImage.java:211-216 | over accepted arguments, the last `-o` keeps the output path and the format name in step |
| LastWrites.FormatFollowsOutput | TextToImage.java:211-216 | when `parseArgs` returns true, the format name is what follows the last '.' of the output path |
| LastWrites.WeightFollowsLast | TextToImage.java:182-188 | the last `-w` or `--bold` decides the weight (BOLD, or the constant the value names); NORMAL when there is neither |
| LastWrites.LastWeightNamed | TextToImage.java:182-188 | over accepted arguments, the last weight writer names the weight, or the start value is kept |
| LastWrites.PostureFollowsLast | TextToImage.java:189-195 | the last `-p` or `--italic` decides the posture; REGULAR when there is neither |
| LastWrites.LastPostureNamed | TextToImage.java:189-195 | over accepted arguments, the last posture writer names the posture, or the start value is kept |
| LastWrites.SwitchesStick | TextToImage.java:206-220 | `isUnderline` and `isShown` are on exactly when `--underline` and `--show` occur among the labels |
| App.TextToImage.constructor | TextToImage.java:29-49 | the fields start at the initial values and no font is chosen yet |
| App.TextToImage.ParseArgs | TextToImage.java:165-239 | the returned status and the new fields are exactly the outcome of the scan from the old fields; the font is untouched |
| App.TextToImage.Turn | TextToImage.java:167-236 | one pass of the `switch` does what `Step` says: the next position and the new fields, or the exit and the fields at that point |
| App.TextToImage.SetValue | TextToImage.java:168-205 | the cases that read a value and are not lookups do what the specification says |
| App.TextToImage.SetStored | TextToImage.java:168-181 | `-t`, `-n`, `-f` and `--names-in` store the next token, and set or clear `isNameUsed`; `--names-in` then returns false |
| App.TextToImage.SetChecked | TextToImage.java:196-205 | `-s`, `--fgColor` and `--bgColor` store the next token when its parser accepts it, and throw otherwise |
| App.TextToImage.SetLookedUp | TextToImage.java:182-217 | `-w`, `-p` and `-o` do what the specification says |
| App.TextToImage.SetWeight | TextToImage.java:182-185 | `-w` sets the weight the value names, or throws |
| App.TextToImage.SetPosture | TextToImage.java:189-192 | `-p` sets the posture the value names, or throws |
| App.TextToImage.SetOutput | TextToImage.java:209-217 | `-o` sets the path and then the format name, or throws with the path already set |
| App.TextToImage.SetSwitch | TextToImage.java:186-236 | the switches set their field, the queries return false unchanged, and a plain token becomes the text |
| App.TextToImage.SetupFont | TextToImage.java:57-62 | the font asked for is by name when `isNameUsed`, by family, weight, posture and size otherwise |
| App.TextToImage.Prepare | TextToImage.java:51-62 | `main` up to the font: fields as the scan leaves them; a font is chosen exactly when parsing returned true |

## Left out

- Rendering, the scene, the window, `launch`, `ImageIO` and the printing of "Font Used" are not part of this model. They are JavaFX and file output.
- The listings and the help text (`showFamiles`, `showFontNames`, `showFontNamesInFamily`, `showHelp`) need the host's font list and standard output. They are kept as the tags `ListFamilies`, `ListNames`, `ListNamesIn(family)` and `ShowHelp` on the false result.
- `Double.valueOf` and `Color.valueOf` are library parsers. They become two predicates in a `Foreign` parameter. The size and the colours are kept as the tokens given to these parsers, so the defaults are "13", "BLACK" and "WHITE".
- Font resolution (`new Font`, `Font.font`) needs the host's fonts. The model stops at the request made (`FontRequest`).
- `FontStyle.UpperChar` maps ASCII letters and the few non-ASCII characters whose upper case is all ASCII (dotless i, long s, sharp s, the ligatures U+FB00 to U+FB06). It keeps every other character. The real mapping can change those characters, but never into a constant name, so the result of the lookup is the same.
- The fields are static in Java and are fields of one `TextToImage` object here. Nothing else in the program reaches them during parsing.
- LastWrites.WeightAt, LastWrites.PostureAt and LastWrites.FormatAt give NORMAL, REGULAR and "" for a value the lookup rejects. Such a value ends the scan, so the fallback never describes a scan that returns true (`WeightFollowsLast`, `PostureFollowsLast`, `FormatFollowsOutput`).
