# video-dwd-cli: the downloader's configuration layer in Dafny

`VideoDownloader` in `download_vid.py` turns the parameters a user gives into
a checked configuration. From that configuration it derives three things:

- the format selector and the output template that it hands to yt-dlp;
- the options dictionary, which it builds entry by entry;
- the path of the file that a finished download leaves behind.

This project models that layer and proves what it promises.

- `wrappers.dfy` (`Wrappers`) defines `Option` and `Result`.
- `text.dfy` (`Text`) holds the `str` operations the layer uses:
  - ASCII `lower()`, `startswith` and the substring test `t in s`;
  - `rfind`, `split` and `join`.
- `paths.dfy` (`Paths`) models POSIX `pathlib` and `os.path`:
  - `Path(s)`, the `/` operator, `str()` and `absolute()`;
  - `os.path.splitext` and `os.path.basename`.

  A parsed path keeps its root: "", "/" or exactly "//". Its components are
  stored with the empty ones and "." dropped, as `pathlib` stores them.
- `downloader.dfy` (`VideoDownloader`) models the core:
  - `PLATFORMS` and `QUALITY_OPTIONS`;
  - the constructor's defaults;
  - `_normalize_platform` and `_validate_inputs`;
  - `_get_quality_format_selector` and `_get_output_template`;
  - `_get_ydl_opts`, as a method that inserts entries into a map one at a time;
  - the final-path computation inside `download`.

Python's truthiness of an optional string counts both `None` and `""` as
absent. `Given` and `OrElse` model it.

The constructor has two effects that are ordered. It may print a domain
warning, and only then does it accept or refuse the parameters. So
`Construct` returns both:

- the warning, if any;
- `Success(config)` or `Failure(error)`. Each error maps to its Python
  exception class through `Kind`.

Two questions to the operating system become parameters:

- `cookiesIsFile`, the answer of `os.path.isfile`;
- `cwd`, the working directory that `Path.cwd()` and `absolute()` use.

Two values that come from yt-dlp become parameters as well:

- `reportedExt`, the `ext` entry of the metadata;
- `prepared`, the result of `prepare_filename`.

After validation the quality is an enumeration. That makes the `int()`
fallback of the selector (lines 107-110) unreachable. `FormatSelector`
therefore has no such branch.

The `'x'` entry of `PLATFORMS` is never looked up. Normalisation has already
turned `x` into `twitter` by then, which `ConstructedConfig` states.

The model follows the code where its comments say more than it does:

- The comment at line 127 announces a temporary extension for audio
  downloads. Yet the branches at lines 128-131 build the same template, so
  `OutputTemplate` does not depend on the mode (`TemplateSameForAudio`).
- The audio branch at lines 169-170 overrides `outtmpl`, but it writes the
  value the template already has. `GetYdlOpts` therefore states a single
  `outtmpl` for both modes.

`pathlib` drops the leading `./` of a directory such as `./out`, so the
template built below it prints as `out/%(title)s.%(ext)s`
(`ExampleDirParsed`, `ExampleYoutubeOptions`).

## Model

| member | source | states |
|---|---|---|
| `VideoDownloader.LookupIn` | download_vid.py:80 | A dictionary lookup finds a value exactly when some entry has the key, and the value it returns is that of the first entry with the key. |
| `VideoDownloader.PlatformKeysDistinct` | download_vid.py:18-23 | No two entries of `PLATFORMS` share a key, so the first entry with a key is the one a Python dictionary keeps. |
| `VideoDownloader.DomainsOf` | download_vid.py:80 | `self.PLATFORMS[self.platform]`. It has no contract of its own; `LookupIn` and `PlatformKeysDistinct` state that it is the domain list stored under the platform. |
| `VideoDownloader.IsPlatform` | download_vid.py:70 | `self.platform in self.PLATFORMS`. It has no contract of its own; `PlatformNames` states that it holds exactly for the four keys. |
| `VideoDownloader.PlatformNames` | download_vid.py:18-23 | The accepted platform names are exactly `youtube`, `instagram`, `twitter` and `x`. |
| `VideoDownloader.KeysExcept` | download_vid.py:71 | The filtered key list holds exactly the table's keys other than the excluded one. |
| `VideoDownloader.SupportedPlatforms` | download_vid.py:71 | The platforms an error message lists never include `x`; every other key of `PLATFORMS` is listed. |
| `VideoDownloader.SupportedPlatformsListed` | download_vid.py:71 | The listed platforms are `youtube`, `instagram`, `twitter`, in the dictionary's order. |
| `VideoDownloader.NormalizePlatform` | download_vid.py:60-65 | The result is lower-case and never `x`. It is `twitter` exactly when the input is `x`, `X` or any casing of `twitter`. Otherwise it is the input lower-cased. |
| `VideoDownloader.NormalizeIdempotent` | download_vid.py:60-65 | Normalising an already normalised name changes nothing. |
| `VideoDownloader.ParseQuality` | download_vid.py:85 | A quality is recognised exactly when it is in `QUALITY_OPTIONS`, and the recognised value carries that label. |
| `VideoDownloader.QualityLabel` | download_vid.py:26 | The strings of `QUALITY_OPTIONS`. It has no contract of its own; `ParseQuality` and `QualityRoundTrip` state that labels and qualities correspond one to one. |
| `VideoDownloader.Height` | download_vid.py:108 | `int(self.quality)` for a numeric quality. It has no contract of its own; `HeightText` states that printing it gives the quality's label back. |
| `VideoDownloader.QualityRoundTrip` | download_vid.py:26 | Every quality value is recognised again from its own label. |
| `VideoDownloader.HeightText` | download_vid.py:108-114 | `str(int(q))` of a numeric quality prints the quality's label again. |
| `VideoDownloader.DecimalText` | download_vid.py:114 | `str(n)` inside the f-string. It has no contract of its own; `HeightText` states that it prints each numeric quality's label. |
| `VideoDownloader.MentionsAnyDomainOccurs` | download_vid.py:79-81 | The domain heuristic holds exactly when some domain occurs as a substring of the lower-cased link. |
| `VideoDownloader.HasWebScheme` | download_vid.py:75 | The scheme test. It has no contract of its own; `ValidateInputs` states that an invalid URL is refused exactly when it fails. |
| `VideoDownloader.MentionsAnyDomain` | download_vid.py:81 | The `any(...)` domain test. It has no contract of its own; `MentionsAnyDomainOccurs` states that it is the substring relation. |
| `VideoDownloader.Kind` | download_vid.py:72-91 | The exception class of each refusal. It has no contract of its own; `MissingCookiesKind` states that the cookie refusal is `FileNotFoundError`. |
| `VideoDownloader.ConstructorFields` | download_vid.py:45-52 | The constructor stores the normalised platform. It stores the quality or `best` when none is truthy, and `Path(output_dir)` or the working directory. Every other argument is stored unchanged. |
| `VideoDownloader.Given` | download_vid.py:90 | Python truthiness of an optional string: present and not empty. It has no contract of its own; `ConstructorFields`, `ValidateInputs`, `GetYdlOpts` and `FinalPath`'s lemmas state each test made with it. |
| `VideoDownloader.OrElse` | download_vid.py:47 | Python's `x or default`. It has no contract of its own; `ConstructorFields` and `FinalExt` state the value it yields, the argument when truthy and the default otherwise. |
| `VideoDownloader.ValidateInputs` | download_vid.py:67-91 | Checks in source order. An invalid-platform error exactly when the platform is not a key. An invalid-URL error exactly when the platform is valid but the scheme is not http(s). An invalid-quality error exactly when both pass but the quality is not an option. A missing-cookies error exactly when those pass and a given cookie path is no file. Otherwise success. A warning, naming the link and the platform, exactly when platform and scheme pass but no domain occurs in the lowered link. Each error carries the offending value, and success keeps every field. |
| `VideoDownloader.Construct` | download_vid.py:45-55 | The constructor, assigning and then validating. It has no contract of its own; `ConstructedConfig`, `DomainMismatchIsAdvisory`, `MissingCookiesKind` and `ExampleYoutubeBest` state what it produces. |
| `VideoDownloader.ConstructedConfig` | download_vid.py:45-91 | A downloader that constructs has a platform that is normalised, listed as supported and never `x`. Its link has a web scheme, and its quality is the requested one or `best` when none was given. Its output directory is well-formed, and the working directory when none was given. |
| `VideoDownloader.DomainMismatchIsAdvisory` | download_vid.py:78-82 | Replacing the link by any other http(s) link never changes whether construction succeeds, so the domain check only warns. |
| `VideoDownloader.MissingCookiesKind` | download_vid.py:89-91 | Once platform, scheme and quality pass, a given cookie path that is no file is refused with a missing-cookies error carrying that path, raised as `FileNotFoundError`. |
| `VideoDownloader.FormatSelector` | download_vid.py:100-114 | Audio-only gives `bestaudio/best`. Otherwise `best` gives `bestvideo+bestaudio/best`. Otherwise height N gives `bestvideo[height<=N]+bestaudio/best[height<=N]/best`. Every selector ends in the `/best` fallback. |
| `VideoDownloader.AudioSelectorIgnoresQuality` | download_vid.py:100-101 | In audio-only mode the selector is the same whatever the quality. |
| `VideoDownloader.TitleTemplateParsed` | download_vid.py:135 | The title template `%(title)s.%(ext)s` is one relative path component. |
| `VideoDownloader.OutputTemplate` | download_vid.py:116-135 | `_get_output_template`. It has no contract of its own; `TemplateBasename`, `TemplateText` and `TemplateSameForAudio` state its file part, its exact text and its independence of the mode. |
| `VideoDownloader.TemplateSameForAudio` | download_vid.py:128-131 | The template does not depend on audio-only mode. |
| `VideoDownloader.JoinedBasename` | download_vid.py:132 | Joining a string below a directory and printing the result keeps the string's basename, when that basename is a real component (not empty, not `.`). |
| `VideoDownloader.TemplateBasename` | download_vid.py:123-135 | The file-name part of the template is the stripped custom name's last component, or `%(title)s`, followed by `.%(ext)s`. |
| `VideoDownloader.StemNonEmpty` | download_vid.py:126 | Stripping the extension of a non-empty name never leaves it empty. |
| `VideoDownloader.Stem` | download_vid.py:126 | `os.path.splitext(self.filename)[0]`. It has no contract of its own; `StemNonEmpty`, `TemplateBasename` and `Paths.SplitExtStem` state what it keeps. |
| `VideoDownloader.TemplateText` | download_vid.py:123-135 | Without a custom name the template is the output directory's printed prefix followed by `%(title)s.%(ext)s`. With a name free of separators, it is that prefix, the name without its last extension, and `.%(ext)s`. |
| `VideoDownloader.GetYdlOpts` | download_vid.py:145-176 | `format` is the selector, and `outtmpl` is the template in both modes, so the audio override changes nothing. `quiet` and `no_warnings` are false. `progress_hooks` holds the attached hook or the downloader's own. `cookiefile` is present iff cookies were given and holds the path. `postprocessors` is present iff audio-only and holds exactly one `FFmpegExtractAudio` with codec format-or-`mp3` and quality `192`. `merge_output_format` is present iff video mode with a format, and holds the format. There are no other keys. |
| `VideoDownloader.FinalExt` | download_vid.py:233-238 | A given format is the extension. Without one, audio gives `mp3` and video gives the reported extension or `mp4`. |
| `VideoDownloader.FinalPath` | download_vid.py:231-255 | The returned path. It has no contract of its own; `FinalPathExtension`, `FinalPathKeepsPreparedName`, `FinalPathIsAbsolute`, `FinalPathFillsTemplate` and `FormatOverridesReportedExt` state its name, its extension, its absoluteness and its text. |
| `VideoDownloader.FormatOverridesReportedExt` | download_vid.py:231-255 | In audio-only mode, or with an explicit format, the final path does not depend on the extension yt-dlp reports. |
| `VideoDownloader.AbsoluteBasename` | download_vid.py:240-255 | Parsing a string, optionally joining it below a directory, making it absolute and printing it keeps its basename, when that basename is a real component (not empty, not `.`). |
| `VideoDownloader.AppendExt` | download_vid.py:239-253 | Appending `.` and an extension with neither dots nor separators to a stem whose last component is not all dots gives the stem's basename, `.` and that extension. `splitext` splits this basename back into the stem's basename and `.` plus the extension. |
| `VideoDownloader.FinalPathExtension` | download_vid.py:231-253 | Whenever the code writes the extension itself (custom name, audio-only or explicit format), the final file's name is the old name's last component stripped of its extension, then `.`, then the chosen extension. `splitext` reads that extension back from the final path. |
| `VideoDownloader.FinalPathKeepsPreparedName` | download_vid.py:254-255 | In video mode with no format and no custom name, the final file keeps the prepared file's name and extension, when the prepared name's basename is a real component (not empty, not `.`). |
| `VideoDownloader.FinalPathIsAbsolute` | download_vid.py:240-255 | The returned path is absolute whenever the working directory is. |
| `VideoDownloader.FinalPathFillsTemplate` | download_vid.py:231-240 | With a separator-free custom name and an extension without separators, the final path is the template with the directory made absolute and `%(ext)s` replaced by the chosen extension. |
| `VideoDownloader.FinalPathText` | download_vid.py:231-240 | With a separator-free custom name and an extension without separators, the final path is the absolute directory's prefix, the stripped name, `.` and the extension. |
| `VideoDownloader.ExampleLinkAccepted` | download_vid.py:75-81 | `https://youtube.com/watch?v=abc` has a web scheme and mentions a YouTube domain. |
| `VideoDownloader.ExampleDirParsed` | download_vid.py:48 | `Path("./out")` is the relative path `out`. |
| `VideoDownloader.ExampleFields` | download_vid.py:45-52 | For the YouTube request saved under `./out`, the constructor stores `youtube`, the link, `best`, `out` and the defaults. |
| `VideoDownloader.ExampleYoutubeBest` | download_vid.py:45-91 | That request constructs, without a warning, into the expected configuration. |
| `VideoDownloader.ExampleYoutubeOptions` | download_vid.py:103-135 | Its selector is `bestvideo+bestaudio/best` and its template is `out/%(title)s.%(ext)s`. |
| `VideoDownloader.PlainName` | download_vid.py:126 | A name with neither dots nor separators is its own basename and its own stem. |
| `VideoDownloader.PlainNameWithFormat` | download_vid.py:231-240 | A plain custom name such as `clip` with a plain format such as `webm` names the final file `clip.webm`, in either mode. |
| `Paths.KeepParts` | download_vid.py:48 | Only real components survive parsing, and a list of real components survives unchanged. |
| `Paths.KeepPartsSingle` | download_vid.py:48 | A single piece survives parsing exactly when it is a real component. |
| `Paths.KeepPartsConcat` | download_vid.py:48 | Dropping works piece by piece, so the real components of any list survive in order. |
| `Paths.Parse` | download_vid.py:48 | `Path(s)` always gives a well-formed path. |
| `Paths.SplitRoot` | download_vid.py:48 | The root split inside `Path(s)`. It has no contract of its own; `ParseRender` and `ParseIsNormal` state that parsing with it inverts `str()`. |
| `Paths.Render` | download_vid.py:132-135 | `str()` of a path. It has no contract of its own; `ParseRender`, `RenderJoinPart`, `RenderBasename` and `RenderRooted` state what it prints. |
| `Paths.Join` | download_vid.py:132 | `p / q` keeps p's root and appends q's components when q is relative, and is q when q is rooted. |
| `Paths.Absolute` | download_vid.py:240 | `absolute()` keeps a rooted path and puts the working directory in front of a relative one. |
| `Paths.SplitExt` | download_vid.py:126 | `splitext` splits a string into stem and extension that concatenate back to it. The extension is empty, or a dot followed by neither a dot nor a separator. |
| `Paths.SplitExtNoExtension` | download_vid.py:126 | `splitext` finds no extension exactly when every dot of the final component is preceded only by dots (`.bashrc`, `..x`, `...`, or no dot). With `SplitExt`'s own contract this fixes its result. |
| `Paths.ParseRender` | download_vid.py:132 | Parsing the printed form of a well-formed path gives the path back. |
| `Paths.ParseIsNormal` | download_vid.py:48 | Printing a parsed path and parsing it again changes nothing. |
| `Paths.ParsePart` | download_vid.py:132 | A single component parses to the relative path of that component. |
| `Paths.RenderJoinPart` | download_vid.py:132 | Appending one component to a directory prints as the directory's prefix followed by the component. |
| `Paths.LastSplit` | download_vid.py:48 | The last piece of `s.split('/')` is `basename(s)`. |
| `Paths.ParseLast` | download_vid.py:132 | Parsing keeps a string's basename as the last component, whenever that basename is a real component. |
| `Paths.RenderBasename` | download_vid.py:132 | The basename of a printed path is its last component. |
| `Paths.AbsoluteRooted` | download_vid.py:240 | Resolving against an absolute working directory gives a rooted path. |
| `Paths.RenderRooted` | download_vid.py:240 | A rooted path prints with a leading separator. |
| `Paths.AbsoluteJoin` | download_vid.py:240 | Making `d / q` absolute is `absolute(d) / q` for a relative q. |
| `Paths.BasenameConcat` | download_vid.py:239 | The basename of `a + b` is b's when b holds a separator, and otherwise a's basename followed by b. |
| `Paths.SplitExtBelow` | download_vid.py:246 | Below a directory prefix, `splitext` only looks at the final component. |
| `Paths.SplitExtBasename` | download_vid.py:246 | `splitext`'s extension depends only on the basename. The stem is the directory part followed by the basename's stem. |
| `Paths.ReplaceExt` | download_vid.py:246-253 | Appending `.` and an extension with neither dots nor separators to a stem whose last component is not all dots: `splitext` gives back exactly that stem and extension. |
| `Paths.SplitExtStem` | download_vid.py:246 | The stem keeps a last component that is not all dots. |
| `Text.Lower` | download_vid.py:62 | Lower-casing keeps the length and lower-cases each character. |
| `Text.LowerIsLowerCase` | download_vid.py:62 | A lower-cased string holds no capital, and a string without capitals lower-cases to itself. |
| `Text.LowerIdempotent` | download_vid.py:79 | Lower-casing twice is lower-casing once. |
| `Text.LowerSingleLetter` | download_vid.py:62-63 | The strings that lower-case to a single letter are that letter and its capital. |
| `Text.ContainsOccurs` | download_vid.py:81 | The substring test holds exactly when the string occurs at some index. |
| `Text.StartsWith` | download_vid.py:75 | `startswith`. It has no contract of its own; `LinkSpellsDomain` and `ValidateInputs` use it as the scheme test. |
| `Text.Contains` | download_vid.py:81 | The substring test `t in s`. It has no contract of its own; `ContainsOccurs` states that it holds exactly when t occurs at some index. |
| `Text.RFind` | download_vid.py:126 | `rfind` returns -1 or an index holding the character, and no later index holds it. |
| `Text.RFindConcat` | download_vid.py:246 | Searching a concatenation from the end finds the match in the right operand first, and otherwise the one in the left. |
| `Text.Split` | download_vid.py:48 | `split` gives at least one piece, and no piece holds the separator. |
| `Text.JoinWith` | download_vid.py:132 | The `'/'.join` inside `str()`. It has no contract of its own; `SplitJoin` and `JoinSplit` state that it and `split` undo each other. |
| `Text.SplitJoin` | download_vid.py:132 | Splitting undoes joining parts that are free of the separator. |
| `Text.JoinSplit` | download_vid.py:48 | Joining undoes splitting. |

## Left out

- The calls into yt-dlp (`extract_info`, `download`, `prepare_filename`, lines 222-243) are not modelled. This is a foreign library. The reported extension and the prepared file name are inputs to `FinalPath`.
- The body of the progress hook (lines 178-187) is not modelled: floating-point percentages and console output. The options record names the hook by an identifier.
- `mkdir` of the output directory (line 58) is not modelled. It is a filesystem effect.
- `os.path.isfile` (line 90) is the boolean parameter `cookiesIsFile`.
- `Path.cwd()` (line 48) and the working directory used by `absolute()` are the string parameter `cwd`.
- The lazy import of yt-dlp, `sys.exit` and the re-raising of exceptions in `download` (lines 200-207, 261-278) are left out as process control. So are the status messages printed at lines 209-217 and 258.
- argparse and `main` (lines 281-375) are left out as command-line plumbing. The options they restrict to fixed choices are modelled as unrestricted strings.
- The wording of error and warning messages is not modelled. Each error carries the values its message names, and each maps to its exception class.
- Text.Lower: folds ASCII capitals only, not Python's full Unicode lower-casing. Platform names, domains and URL schemes are ASCII.
- VideoDownloader.FormatSelector: it has no branch for the `int()` failure at lines 109-110, which no validated quality reaches.
- VideoDownloader.FinalExt: the reported `ext` is an optional string. Metadata whose `ext` is not a string is not modelled.
- VideoDownloader.TemplateText: the exact text is stated only for a custom name without separators. `TemplateBasename` covers names with separators.
- VideoDownloader.FinalPathFillsTemplate: it is stated only for a custom name and an extension without separators. `FinalPathExtension` covers the general case through the final file's name.
- VideoDownloader.FinalPathExtension: it requires an extension without dots or separators and a name whose last component is not all dots. Without those, `splitext` splits differently and the appended extension need not read back.
- Paths.Parse: `pathlib`'s handling of Windows drives and reserved names is not modelled. Only POSIX paths are.
