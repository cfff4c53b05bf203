# Pharmacist: documentation templates, reference comparer and the NuGet task's decisions

This Dafny project models three small pieces of sequential logic from Pharmacist, a generator of observable wrappers for .NET events:

- **`XmlSyntaxFactory`** (`xml_syntax_factory.dfy`) covers the overloads that build C# XML documentation comments. They are the inherit-doc marker, the summary, summary-and-return, summary-with-parameters (with and without a return line), method-based and see-also templates. The source hands each template string to Roslyn's trivia parser. The model's result is that template string. The text is handled as a sequence of lines: `Lines` renders a sequence of lines, each followed by the line terminator, and `SplitLines` undoes it: `SplitLinesOfLines` proves `SplitLines(Lines(ls)) == ls` when no line holds the terminator. The overloads that fill a `StringBuilder` in a `foreach` loop are methods with loop invariants. The overloads that only concatenate strings are functions.
- **`Comparers`** (`assembly_reference_name_comparer.dfy`) covers `AssemblyReferenceNameComparer`, which compares nullable assembly references by `FullName` alone, with explicit null rules. The invariant-culture string comparer it delegates to is a value of type `StringComparer`. Its laws (an equivalence, a consistent hash) are predicates that the lemmas assume where they need them.
- **`NuGetTask`** (`pharmacist_nuget_task.dfy`) covers the build task's `GetPackages` filter loop, the lock-file up-to-date check and the return/lock-write flow of `Execute`. The file system, JSON, the framework helper and the event generator are abstracted: what they answer is a field of `TaskInputs`. The library calls the task makes (case-insensitive comparison, `VersionRange.TryParse`, `LibraryRange.Equals`, `char.IsWhiteSpace`) are the function-valued fields of `Host`.

`wrappers.dfy` holds the `Option` datatype, which stands for a C# null.

Four behaviours of the code are easy to misread; the model follows the code:

- The summary-and-return overload writes its return line as `/// <returns>` + text + `///<returns>`, with a malformed closing tag. The parameters-and-return overload writes `</returns>`. The model reproduces both, and `ReturnsOverloadsDiffer` proves that the two overloads disagree even with no parameters.
- The texts are inserted unchanged, so a text holding a line terminator produces a line without the `/// ` prefix. `MultiLineSummaryBreaksPrefix` shows it for the summary text `a` + newline + `b`. The line-structure lemmas therefore assume texts without line terminators.
- The comparer compares whole `FullName` strings, and a .NET full name includes the version and the key token, so two references that differ only in version are not equal. What the code guarantees is that `Equals` and `GetHashCode` read no member but `FullName`.
- `StringComparer.InvariantCulture` is linguistic, not ordinal: two different strings can compare equal. The model claims nothing about that comparer beyond the laws each lemma names.

## Model

| member | source | states |
|---|---|---|
| `XmlSyntaxFactory.SplitLinesOfLines` | src/EventBuilder.Core/Reflection/XmlSyntaxFactory.cs:94-97 | splitting a text rendered line by line, each line followed by the terminator, gives back exactly those lines when none of them holds a terminator |
| `XmlSyntaxFactory.InheritdocIsOneLine` | src/EventBuilder.Core/Reflection/XmlSyntaxFactory.cs:29-33 | the inherit-doc marker is the single line `/// <inheritdoc />` followed by the newline, so it never shares a line with the declaration |
| `XmlSyntaxFactory.ReplaceChar` | src/EventBuilder.Core/Reflection/XmlSyntaxFactory.cs:49 | replacing one character keeps the length, puts the new character at every position of the old one and leaves every other position unchanged |
| `XmlSyntaxFactory.EscapeCref` | src/EventBuilder.Core/Reflection/XmlSyntaxFactory.cs:49 | the cref escape maps every `<` to `{` and every `>` to `}`, keeps every other character and the length, and leaves no angle bracket |
| `XmlSyntaxFactory.EscapeCrefIsNotInjective` | src/EventBuilder.Core/Reflection/XmlSyntaxFactory.cs:49 | the escape is lossy: `List<T>` and `List{T}` escape to the same target |
| `XmlSyntaxFactory.FormatSinglePlaceholder` | src/EventBuilder.Core/Reflection/XmlSyntaxFactory.cs:49 | formatting a template with one `{0}` between text without braces (`{` or `}`) puts the argument in place of the placeholder and copies the rest |
| `XmlSyntaxFactory.GenerateSummarySeeAlsoComment` | src/EventBuilder.Core/Reflection/XmlSyntaxFactory.cs:47-55 | the see-also comment is the three summary lines of the summary text formatted with `<see cref="…" />` around the escaped target; `SeeAlsoSubstitutesEscapedCref` and `SeeAlsoGenericTarget` spell out the result |
| `XmlSyntaxFactory.SeeAlsoIsSummaryOfFormatted` | src/EventBuilder.Core/Reflection/XmlSyntaxFactory.cs:47-55 | the two-argument see-also comment is the summary-only comment of the summary template formatted with `<see cref="…" />` around the escaped target |
| `XmlSyntaxFactory.SeeAlsoSubstitutesEscapedCref` | src/EventBuilder.Core/Reflection/XmlSyntaxFactory.cs:47-55 | for a summary template `p{0}q` the see-also comment is the three summary lines whose text is `p`, the cref element around the escaped target, and `q` |
| `XmlSyntaxFactory.SeeAlsoGenericTarget` | src/EventBuilder.Core/Reflection/XmlSyntaxFactory.cs:49-52 | `See {0}` with target `List<Int32>` renders the summary text `See <see cref="List{Int32}" />` |
| `XmlSyntaxFactory.GenerateSummaryComment` | src/EventBuilder.Core/Reflection/XmlSyntaxFactory.cs:73-80 | the summary-only comment is the rendering of the three lines `/// <summary>`, `/// ` + text and `/// </summary>`; `SummaryCommentLines` splits it back |
| `XmlSyntaxFactory.MultiLineSummaryBreaksPrefix` | src/EventBuilder.Core/Reflection/XmlSyntaxFactory.cs:73-80 | a summary text `a` + newline + `b` splits into four lines, and the third, `b`, lacks the `/// ` prefix |
| `XmlSyntaxFactory.SummaryCommentLines` | src/EventBuilder.Core/Reflection/XmlSyntaxFactory.cs:73-80 | the summary-only comment renders three lines; when the text holds no line terminator it splits into exactly those three lines: `/// <summary>`, `/// ` + text, `/// </summary>` |
| `XmlSyntaxFactory.GenerateSummaryReturnsComment` | src/EventBuilder.Core/Reflection/XmlSyntaxFactory.cs:82-90 | the summary-and-return comment is the rendering of the three summary lines followed by the return line with its malformed `///<returns>` closing tag |
| `XmlSyntaxFactory.SummaryReturnsCommentLines` | src/EventBuilder.Core/Reflection/XmlSyntaxFactory.cs:82-90 | the summary-and-return comment is the three summary lines and a fourth line `/// <returns>` + text + `///<returns>`, with the closing tag as the source writes it |
| `XmlSyntaxFactory.ReturnsOverloadsDiffer` | src/EventBuilder.Core/Reflection/XmlSyntaxFactory.cs:82-90 | the summary-and-return overload never produces the text of the parameters-and-return overload with no parameters |
| `XmlSyntaxFactory.GenerateSummaryParamsComment` | src/EventBuilder.Core/Reflection/XmlSyntaxFactory.cs:92-105 | the text built by the loop is the three summary lines followed by one parameter line per pair, in the given order |
| `XmlSyntaxFactory.ParamsCommentLines` | src/EventBuilder.Core/Reflection/XmlSyntaxFactory.cs:92-105 | when the summary text and every parameter name and text hold no line terminator, the parameter text splits into 3 + n lines: the summary lines, then line 3 + k is `/// <param name="n">t</param>` for the k-th pair, none omitted or repeated; every line starts with `/// ` |
| `XmlSyntaxFactory.EmptyParamsIsSummaryOnly` | src/EventBuilder.Core/Reflection/XmlSyntaxFactory.cs:92-105 | with no parameters the parameter overload yields the summary-only text |
| `XmlSyntaxFactory.GenerateSummaryParamsReturnsComment` | src/EventBuilder.Core/Reflection/XmlSyntaxFactory.cs:107-121 | the text built by the loop is the summary lines, one parameter line per pair in order, and a last `/// <returns>…</returns>` line |
| `XmlSyntaxFactory.ReturnsLineIsLast` | src/EventBuilder.Core/Reflection/XmlSyntaxFactory.cs:107-121 | the parameters-and-return text is the parameter text plus exactly one returns line, which comes after every parameter line |
| `XmlSyntaxFactory.GenerateSummarySeeAlsoParamsComment` | src/EventBuilder.Core/Reflection/XmlSyntaxFactory.cs:57-71 | the text built by the loop is the summary lines of the formatted see-also text followed by one parameter line per pair, in order |
| `XmlSyntaxFactory.EmptyParamsIsSeeAlsoOnly` | src/EventBuilder.Core/Reflection/XmlSyntaxFactory.cs:57-71 | with no parameters the see-also parameter overload yields the two-argument see-also text |
| `XmlSyntaxFactory.GenerateSummaryMethodComment` | src/EventBuilder.Core/Reflection/XmlSyntaxFactory.cs:40-45 | the method-based text is the parameter text of the pairs (name, format applied to name), one per method parameter, in the method's order |
| `XmlSyntaxFactory.MethodCommentLines` | src/EventBuilder.Core/Reflection/XmlSyntaxFactory.cs:40-45 | when the summary text, the parameter format and the names hold no line terminator, line 3 + k of the method-based text names the k-th method parameter and carries the parameter format applied to that name; the summary line carries the summary text unformatted |
| `Comparers.Default` | src/Pharmacist.Core/Comparers/AssemblyReferenceNameComparer.cs:14 | the shared comparer delegates to the invariant-culture comparer, and compares every reference equal to itself when that comparer is an equivalence |
| `Comparers.AssemblyReferenceNameComparer.Equals` | src/Pharmacist.Core/Comparers/AssemblyReferenceNameComparer.cs:17-30 | with a null on either side the references are equal exactly when both are null; two non-null references are equal exactly when the invariant-culture comparer equates their full names |
| `Comparers.AssemblyReferenceNameComparer.GetHashCode` | src/Pharmacist.Core/Comparers/AssemblyReferenceNameComparer.cs:33-36 | when the string hash is consistent, every reference that `Equals` equates with the argument hashes its full name to the same code |
| `Comparers.EqualsNullNull` | src/Pharmacist.Core/Comparers/AssemblyReferenceNameComparer.cs:19-22 | two null references are equal |
| `Comparers.EqualsOneNull` | src/Pharmacist.Core/Comparers/AssemblyReferenceNameComparer.cs:24-27 | a null and a non-null reference are unequal, in either order |
| `Comparers.EqualsByFullNameOnly` | src/Pharmacist.Core/Comparers/AssemblyReferenceNameComparer.cs:29 | two non-null references are equal exactly when the invariant-culture comparer equates their full names; Equals and GetHashCode read no field but FullName |
| `Comparers.EqualsIsEquivalence` | src/Pharmacist.Core/Comparers/AssemblyReferenceNameComparer.cs:17-30 | Equals is reflexive, symmetric and transitive on nullable references when the string comparer is an equivalence |
| `Comparers.HashAgreesWithEquals` | src/Pharmacist.Core/Comparers/AssemblyReferenceNameComparer.cs:33-36 | references that are equal have equal hash codes when the string comparer's hash is consistent with its equality |
| `Comparers.SameFullNameIsSameReference` | src/Pharmacist.Core/Comparers/AssemblyReferenceNameComparer.cs:14-36 | under the default comparer two references with the same full name are equal and hash equal, whatever else the references hold |
| `NuGetTask.IsExcluded` | src/Pharmacist.MsBuild.NuGet/PharmacistNuGetTask.cs:29-33 | a package name is excluded exactly when the case-insensitive comparer equates it with `Pharmacist.MSBuild` or `Pharmacist.Common` |
| `NuGetTask.PackageEntry` | src/Pharmacist.MsBuild.NuGet/PharmacistNuGetTask.cs:144-156 | a reference contributes an entry exactly when it is not excluded and its version parses; the entry has the reference's name, the parsed range and the `Package` target |
| `NuGetTask.Packages` | src/Pharmacist.MsBuild.NuGet/PharmacistNuGetTask.cs:140-157 | the package list is no longer than the references and holds only non-excluded names with the `Package` target; `PackagesMembership`, `PackagesProvenance` and `PackagesComplete` characterise it |
| `NuGetTask.GetPackages` | src/Pharmacist.MsBuild.NuGet/PharmacistNuGetTask.cs:135-160 | the filter loop returns the package list of the references: one entry per reference that is not excluded and whose version parses, in reference order |
| `NuGetTask.PackagesAppend` | src/Pharmacist.MsBuild.NuGet/PharmacistNuGetTask.cs:140-157 | the package list of concatenated references is the concatenation of their package lists, so the surviving references keep their relative order |
| `NuGetTask.PackagesMembership` | src/Pharmacist.MsBuild.NuGet/PharmacistNuGetTask.cs:140-157 | a library is in the package list exactly when some reference contributes it |
| `NuGetTask.PackagesNoLonger` | src/Pharmacist.MsBuild.NuGet/PharmacistNuGetTask.cs:140-157 | the package list is no longer than the reference list |
| `NuGetTask.PackagesProvenance` | src/Pharmacist.MsBuild.NuGet/PharmacistNuGetTask.cs:144-156 | every package carries the name of a reference outside the case-insensitive exclusion set, that reference's parsed version range and the Package target |
| `NuGetTask.PackagesComplete` | src/Pharmacist.MsBuild.NuGet/PharmacistNuGetTask.cs:155-156 | every reference outside the exclusion set whose version parses is in the package list |
| `NuGetTask.InvalidVersionIsSkipped` | src/Pharmacist.MsBuild.NuGet/PharmacistNuGetTask.cs:149-153 | a reference whose version does not parse is dropped, and the references after it are processed as if it were absent |
| `NuGetTask.Execute` | src/Pharmacist.MsBuild.NuGet/PharmacistNuGetTask.cs:74-133 | a blank output file or unresolved frameworks return false and write no lock file; an up-to-date lock returns true and writes no lock file; otherwise the result is whether extraction succeeded, and the lock file is written with the package list only then |
| `NuGetTask.LockMatches` | src/Pharmacist.MsBuild.NuGet/PharmacistNuGetTask.cs:101 | a matching lock list is non-null and as long as the package list; a lock list equal to the package list matches when `LibraryRange.Equals` is reflexive |
| `NuGetTask.UpToDate` | src/Pharmacist.MsBuild.NuGet/PharmacistNuGetTask.cs:95-101 | the check fails when either file is missing or the lock file cannot be read; when it passes the lock list is as long as the package list; both files present with the package list recorded pass it when `LibraryRange.Equals` is reflexive |
| `NuGetTask.LockMatchIsNotMultisetEquality` | src/Pharmacist.MsBuild.NuGet/PharmacistNuGetTask.cs:101 | the up-to-date check is count plus containment: a locked list `[a, a]` matches packages `[a, b]` although the two differ as multisets |
| `NuGetTask.RerunIsUpToDate` | src/Pharmacist.MsBuild.NuGet/PharmacistNuGetTask.cs:95-104 | when the lock file holds the package list a successful run wrote and both files exist, the next run over the same references takes the short-circuit |

## Left out

- Roslyn's `ParseLeadingTrivia` and the `SyntaxTriviaList` it returns: the model stops at the template string each overload parses.
- `Environment.NewLine` is the constant `"\n"`. The Windows terminator `"\r\n"` is not modelled. The line-splitting lemmas depend on the terminator being one character that the lines do not contain.
- `string.Format` is modelled as replacement of every `{0}` by the argument. Escaped braces (`{{`, `}}`), alignment and format strings, other indices and the `FormatException` a malformed template raises are not modelled. A lone `{` is copied.
- The method entity (`IMethod`) is modelled only as the ordered sequence of its parameter names.
- `StringComparer.InvariantCulture`, `StringComparer.InvariantCultureIgnoreCase`, `VersionRange.TryParse`, `LibraryRange.Equals` and `char.IsWhiteSpace` are parameters of the model. They are not defined, and no lemma claims ordinal semantics for them.
- `Default`: a static singleton in the source. Dafny values carry no object identity, so the model has one comparer value per invariant-culture comparer. That the same instance is shared is not modelled.
- `GetHashCode` takes a non-null reference. The exception a null argument raises is not modelled.
- The NuGet task's MSBuild properties other than the package references and the output file, its `Log` calls, the Splat logger registration and the JSON settings are not modelled.
- `TargetFrameworkHelper.GetTargetFrameworks` is not modelled. Its answer is the input `targetFrameworks`.
- File existence, reading and deserialising the lock file, and the exceptions caught around that read are not modelled. Their answers are inputs, and `ReadFailed` stands for a caught exception.
- `ObservablesForEventGenerator` (`WriteHeader`, `ExtractEventsFromNuGetPackages`) is not part of this model. Whether extraction completes is the input `extractionSucceeds`. The text written to the output file is not modelled.
- Exceptions thrown outside the task's `try` blocks escape `Execute` and are not modelled. These come from opening the output file, writing its header and writing the lock file.
- Blocking on the generator's asynchronous calls is not modelled, and neither is any concurrency.
