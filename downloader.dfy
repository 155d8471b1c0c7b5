/**
 * The configuration layer of the video downloader: it normalises and checks
 * the user's parameters, and from the checked configuration derives the
 * format selector, the output template and the options record handed to
 * yt-dlp, and the path of the file a finished download leaves behind.
 *
 * yt-dlp itself is not modelled: the extension it reports for a video and
 * the file name it prepares are inputs. So are the two facts this layer
 * asks of the operating system: whether the cookie file exists and what
 * the working directory is.
 */
module VideoDownloader {
  import opened Wrappers
  import opened Text
  import opened Paths

  // ------------------------------------------------------------ parameters

  /** An optional string that Python treats as true: present and not empty. */
  predicate Given(o: Option<string>) {
    o.Some? && o.value != ""
  }

  /** Python's `o or default` on an optional string. */
  function OrElse(o: Option<string>, default: string): string {
    if Given(o) then o.value else default
  }

  /** The parameters of the downloader's constructor, as the caller passes them. */
  datatype Request = Request(
    platform: string,
    link: string,
    quality: Option<string>,
    outputDir: Option<string>,
    audioOnly: bool,
    filename: Option<string>,
    cookies: Option<string>,
    format: Option<string>)

  /** The attributes the constructor assigns, before they are checked. */
  datatype Fields = Fields(
    platform: string,
    link: string,
    quality: string,
    outputDir: Path,
    audioOnly: bool,
    filename: Option<string>,
    cookies: Option<string>,
    format: Option<string>)

  datatype Quality = P360 | P480 | P720 | P1080 | Best

  /** A downloader whose attributes passed every check. */
  datatype Config = Config(
    platform: string,
    link: string,
    quality: Quality,
    outputDir: Path,
    audioOnly: bool,
    filename: Option<string>,
    cookies: Option<string>,
    format: Option<string>)

  /** The reasons the constructor refuses its parameters. */
  datatype ConfigError =
    | InvalidPlatform(platform: string, supported: seq<string>)
    | InvalidUrl(link: string)
    | InvalidQuality(quality: string, supported: seq<string>)
    | CookiesNotFound(path: string)

  /** The Python exception class each refusal is raised as. */
  datatype ErrorKind = ValueError | FileNotFoundError

  function Kind(e: ConfigError): ErrorKind {
    if e.CookiesNotFound? then FileNotFoundError else ValueError
  }

  /** The advisory message printed when the link names none of the platform's domains. */
  datatype Warning = DomainMismatch(link: string, platform: string)

  /** What constructing a downloader produces: a warning it may have printed, and the downloader or the error. */
  datatype Construction = Construction(warning: Option<Warning>, outcome: Result<Config, ConfigError>)

  // ------------------------------------------------------------- platforms

  /** `PLATFORMS`, in its insertion order: each name with the domains its links use. */
  const Platforms: seq<(string, seq<string>)> := [
    ("youtube", ["youtube.com", "youtu.be"]),
    ("instagram", ["instagram.com"]),
    ("twitter", ["twitter.com", "x.com"]),
    ("x", ["twitter.com", "x.com"])
  ]

  /** Lookup in a table of key/value pairs: the value of the first entry with that key, which is a dictionary's `d[key]` when the keys are distinct. */
  function LookupIn(table: seq<(string, seq<string>)>, key: string): (r: Option<seq<string>>)
    ensures r.Some? <==> exists i :: 0 <= i < |table| && table[i].0 == key
    ensures r.Some? ==>
      exists i :: 0 <= i < |table| && table[i] == (key, r.value) && forall j :: 0 <= j < i ==> table[j].0 != key
  {
    if table == [] then None
    else if table[0].0 == key then Some(table[0].1)
    else LookupIn(table[1..], key)
  }

  /** The keys of `PLATFORMS` are distinct, so `LookupIn` finds the value the dictionary holds. */
  lemma PlatformKeysDistinct()
    ensures forall i, j :: 0 <= i < j < |Platforms| ==> Platforms[i].0 != Platforms[j].0
  {
  }

  function DomainsOf(platform: string): Option<seq<string>> {
    LookupIn(Platforms, platform)
  }

  predicate IsPlatform(platform: string) {
    DomainsOf(platform).Some?
  }

  /** The platform names accepted are exactly the four keys of `PLATFORMS`. */
  lemma PlatformNames(platform: string)
    ensures IsPlatform(platform) <==>
      platform == "youtube" || platform == "instagram" || platform == "twitter" || platform == "x"
  {
    if platform == "youtube" {
      assert Platforms[0].0 == platform;
    } else if platform == "instagram" {
      assert Platforms[1].0 == platform;
    } else if platform == "twitter" {
      assert Platforms[2].0 == platform;
    } else if platform == "x" {
      assert Platforms[3].0 == platform;
    }
  }

  /** The keys of a table in order, without the entries whose key is `excluded`. */
  function KeysExcept(table: seq<(string, seq<string>)>, excluded: string): (r: seq<string>)
    ensures forall k :: k in r <==> k != excluded && exists i :: 0 <= i < |table| && table[i].0 == k
  {
    if table == [] then []
    else
      var rest := KeysExcept(table[1..], excluded);
      assert forall i :: 1 <= i < |table| ==> table[i] == table[1..][i - 1];
      if table[0].0 == excluded then rest else [table[0].0] + rest
  }

  /** The platform names an invalid-platform error lists: the keys of `PLATFORMS` but the alias. */
  function SupportedPlatforms(): (r: seq<string>)
    ensures "x" !in r
    ensures forall p :: p in r <==> p != "x" && IsPlatform(p)
  {
    KeysExcept(Platforms, "x")
  }

  lemma SupportedPlatformsListed()
    ensures SupportedPlatforms() == ["youtube", "instagram", "twitter"]
  {
  }

  /**
   * `_normalize_platform`: the alias `x` in either case becomes `twitter`;
   * any other name is lower-cased and otherwise kept.
   */
  function NormalizePlatform(platform: string): (r: string)
    ensures IsLowerCase(r)
    ensures r != "x"
    ensures r == "twitter" <==> platform == "x" || platform == "X" || Lower(platform) == "twitter"
    ensures r != "twitter" ==> r == Lower(platform)
  {
    LowerIsLowerCase(platform);
    LowerSingleLetter(platform, 'x');
    var platformLower := Lower(platform);
    if platformLower == "x" then "twitter" else platformLower
  }

  /** Normalising a normalised name changes nothing. */
  lemma NormalizeIdempotent(platform: string)
    ensures NormalizePlatform(NormalizePlatform(platform)) == NormalizePlatform(platform)
  {
    var r := NormalizePlatform(platform);
    LowerIsLowerCase(r);
  }

  // --------------------------------------------------------------- quality

  /** `QUALITY_OPTIONS`. */
  const QualityOptions: seq<string> := ["360", "480", "720", "1080", "best"]

  function QualityLabel(q: Quality): string {
    match q
    case P360 => "360"
    case P480 => "480"
    case P720 => "720"
    case P1080 => "1080"
    case Best => "best"
  }

  /** The membership test against `QUALITY_OPTIONS`, keeping which option matched. */
  function ParseQuality(s: string): (r: Option<Quality>)
    ensures r.Some? <==> s in QualityOptions
    ensures r.Some? ==> QualityLabel(r.value) == s
  {
    if s == "360" then Some(P360)
    else if s == "480" then Some(P480)
    else if s == "720" then Some(P720)
    else if s == "1080" then Some(P1080)
    else if s == "best" then Some(Best)
    else None
  }

  /** Every quality is recognised from its own label. */
  lemma QualityRoundTrip(q: Quality)
    ensures ParseQuality(QualityLabel(q)) == Some(q)
  {
  }

  /** The target height of a numeric quality, `int(self.quality)`. */
  function Height(q: Quality): nat
    requires q != Best
  {
    match q
    case P360 => 360
    case P480 => 480
    case P720 => 720
    case P1080 => 1080
  }

  function Digit(d: nat): char
    requires d < 10
  {
    "0123456789"[d]
  }

  /** Python's `str(n)` for a natural number. */
  function DecimalText(n: nat): string {
    if n < 10 then [Digit(n)] else DecimalText(n / 10) + [Digit(n % 10)]
  }

  /** Formatting a numeric quality's height prints its label again. */
  lemma HeightText(q: Quality)
    requires q != Best
    ensures DecimalText(Height(q)) == QualityLabel(q)
  {
    match q
    case P360 =>
      assert DecimalText(360) == "360" by {
        assert DecimalText(36) == "36" by { assert DecimalText(3) == "3"; }
      }
    case P480 =>
      assert DecimalText(480) == "480" by {
        assert DecimalText(48) == "48" by { assert DecimalText(4) == "4"; }
      }
    case P720 =>
      assert DecimalText(720) == "720" by {
        assert DecimalText(72) == "72" by { assert DecimalText(7) == "7"; }
      }
    case P1080 =>
      assert DecimalText(1080) == "1080" by {
        assert DecimalText(108) == "108" by {
          assert DecimalText(10) == "10" by { assert DecimalText(1) == "1"; }
        }
      }
  }

  // ------------------------------------------------------------ validation

  /** The scheme test on the link: it must begin with `http://` or `https://`. */
  predicate HasWebScheme(link: string) {
    StartsWith(link, "http://") || StartsWith(link, "https://")
  }

  /** `any(domain in url for domain in domains)`. */
  predicate MentionsAnyDomain(url: string, domains: seq<string>) {
    exists i :: 0 <= i < |domains| && Contains(url, domains[i])
  }

  /** The domain heuristic in full: true exactly when some domain occurs in the lower-cased link. */
  lemma MentionsAnyDomainOccurs(link: string, domains: seq<string>)
    ensures MentionsAnyDomain(Lower(link), domains) <==>
      exists i, j :: 0 <= i < |domains| && OccursAt(Lower(link), domains[i], j)
  {
    forall i | 0 <= i < |domains| {
      ContainsOccurs(Lower(link), domains[i]);
    }
  }

  /** The constructor's assignments: normalised platform, default quality, working directory as default. */
  function ConstructorFields(req: Request, cwd: string): (f: Fields)
    ensures f.platform == NormalizePlatform(req.platform)
    ensures f.quality == if Given(req.quality) then req.quality.value else "best"
    ensures f.outputDir == Parse(if Given(req.outputDir) then req.outputDir.value else cwd)
    ensures f.link == req.link && f.audioOnly == req.audioOnly && f.filename == req.filename
    ensures f.cookies == req.cookies && f.format == req.format
  {
    Fields(
      NormalizePlatform(req.platform),
      req.link,
      OrElse(req.quality, "best"),
      if Given(req.outputDir) then Parse(req.outputDir.value) else Parse(cwd),
      req.audioOnly,
      req.filename,
      req.cookies,
      req.format)
  }

  /**
   * `_validate_inputs`, in its order: platform, link scheme, the advisory
   * domain check, quality, cookie file. `cookiesIsFile` is the answer of
   * `os.path.isfile` for the cookie path.
   */
  function ValidateInputs(f: Fields, cookiesIsFile: bool): (r: Construction)
    ensures (r.outcome.Failure? && r.outcome.error.InvalidPlatform?) <==> !IsPlatform(f.platform)
    ensures r.outcome == Failure(InvalidUrl(f.link)) <==> IsPlatform(f.platform) && !HasWebScheme(f.link)
    ensures (r.outcome.Failure? && r.outcome.error.InvalidQuality?) <==>
      IsPlatform(f.platform) && HasWebScheme(f.link) && f.quality !in QualityOptions
    ensures (r.outcome.Failure? && r.outcome.error.CookiesNotFound?) <==>
      IsPlatform(f.platform) && HasWebScheme(f.link) && f.quality in QualityOptions
      && Given(f.cookies) && !cookiesIsFile
    ensures r.outcome.Success? <==>
      IsPlatform(f.platform) && HasWebScheme(f.link) && f.quality in QualityOptions
      && (!Given(f.cookies) || cookiesIsFile)
    ensures r.warning.Some? <==>
      IsPlatform(f.platform) && HasWebScheme(f.link)
      && !MentionsAnyDomain(Lower(f.link), DomainsOf(f.platform).value)
    ensures r.warning.Some? ==> r.warning.value == DomainMismatch(f.link, f.platform)
    ensures r.outcome.Failure? ==> match r.outcome.error
      case InvalidPlatform(p, supported) => p == f.platform && supported == SupportedPlatforms()
      case InvalidQuality(q, supported) => q == f.quality && supported == QualityOptions
      case CookiesNotFound(path) => Given(f.cookies) && path == f.cookies.value
      case InvalidUrl(link) => link == f.link
    ensures r.outcome.Success? ==> var c := r.outcome.value;
      && c.platform == f.platform && c.link == f.link && QualityLabel(c.quality) == f.quality
      && c.outputDir == f.outputDir && c.audioOnly == f.audioOnly && c.filename == f.filename
      && c.cookies == f.cookies && c.format == f.format
  {
    if DomainsOf(f.platform).None? then
      Construction(None, Failure(InvalidPlatform(f.platform, SupportedPlatforms())))
    else if !HasWebScheme(f.link) then
      Construction(None, Failure(InvalidUrl(f.link)))
    else
      var urlLower := Lower(f.link);
      var warning :=
        if !MentionsAnyDomain(urlLower, DomainsOf(f.platform).value)
        then Some(DomainMismatch(f.link, f.platform)) else None;
      var quality := ParseQuality(f.quality);
      if quality.None? then
        Construction(warning, Failure(InvalidQuality(f.quality, QualityOptions)))
      else if Given(f.cookies) && !cookiesIsFile then
        Construction(warning, Failure(CookiesNotFound(f.cookies.value)))
      else
        Construction(warning, Success(Config(
          f.platform, f.link, quality.value, f.outputDir,
          f.audioOnly, f.filename, f.cookies, f.format)))
  }

  /** The constructor: assign the attributes, then validate them. */
  function Construct(req: Request, cwd: string, cookiesIsFile: bool): Construction {
    ValidateInputs(ConstructorFields(req, cwd), cookiesIsFile)
  }

  /**
   * What a successful construction guarantees: a canonical platform name
   * that is listed as supported (never the alias), a link with a web scheme,
   * the requested quality or `best` when none was given, and a well-formed
   * output directory.
   */
  lemma ConstructedConfig(req: Request, cwd: string, cookiesIsFile: bool)
    requires Construct(req, cwd, cookiesIsFile).outcome.Success?
    ensures var c := Construct(req, cwd, cookiesIsFile).outcome.value;
      && c.platform == NormalizePlatform(req.platform)
      && c.platform in SupportedPlatforms()
      && c.platform != "x"
      && HasWebScheme(c.link)
      && (!Given(req.quality) ==> c.quality == Best)
      && (Given(req.quality) ==> QualityLabel(c.quality) == req.quality.value)
      && WellFormed(c.outputDir)
      && (!Given(req.outputDir) ==> c.outputDir == Parse(cwd))
  {
  }

  /** A link that names none of the platform's domains only earns a warning; it never decides the outcome. */
  lemma DomainMismatchIsAdvisory(req: Request, cwd: string, cookiesIsFile: bool, otherLink: string)
    requires HasWebScheme(req.link) && HasWebScheme(otherLink)
    ensures Construct(req, cwd, cookiesIsFile).outcome.Success? ==
      Construct(req.(link := otherLink), cwd, cookiesIsFile).outcome.Success?
  {
  }

  /**
   * A cookie path that is given but is no file is refused, raised as
   * `FileNotFoundError`, once the earlier checks have passed.
   */
  lemma MissingCookiesKind(req: Request, cwd: string)
    requires IsPlatform(NormalizePlatform(req.platform)) && HasWebScheme(req.link)
    requires OrElse(req.quality, "best") in QualityOptions && Given(req.cookies)
    ensures Construct(req, cwd, false).outcome == Failure(CookiesNotFound(req.cookies.value))
    ensures Kind(Construct(req, cwd, false).outcome.error) == FileNotFoundError
  {
  }

  // ------------------------------------------------------- format selector

  /** `_get_quality_format_selector`. */
  function FormatSelector(cfg: Config): (r: string)
    ensures cfg.audioOnly ==> r == "bestaudio/best"
    ensures !cfg.audioOnly && cfg.quality == Best ==> r == "bestvideo+bestaudio/best"
    ensures !cfg.audioOnly && cfg.quality != Best ==>
      var n := QualityLabel(cfg.quality);
      r == "bestvideo[height<=" + n + "]+bestaudio/best[height<=" + n + "]/best"
    ensures |r| >= 5 && r[|r| - 5..] == "/best"
  {
    if cfg.audioOnly then "bestaudio/best"
    else if cfg.quality == Best then "bestvideo+bestaudio/best"
    else
      var targetHeight := DecimalText(Height(cfg.quality));
      HeightText(cfg.quality);
      "bestvideo[height<=" + targetHeight + "]+bestaudio/best[height<=" + targetHeight + "]/best"
  }

  /** In audio-only mode the quality plays no part in the selector. */
  lemma AudioSelectorIgnoresQuality(cfg: Config, q: Quality)
    requires cfg.audioOnly
    ensures FormatSelector(cfg.(quality := q)) == FormatSelector(cfg)
  {
  }

  // ------------------------------------------------------- output template

  /** The default file-name template: the video's title and the extension yt-dlp picks. */
  const TitleTemplate: string := "%(title)s.%(ext)s"

  /**
   * `TitleTemplate` as pathlib reads it: a single relative component
   * (`TitleTemplateParsed`). The model joins this value, so that the verifier
   * does not evaluate the parse of the literal each time a template is built.
   */
  const TitlePath: Path := Path("", [TitleTemplate])

  /** The extension field the template ends in. */
  const ExtField: string := ".%(ext)s"

  /** `os.path.splitext(filename)[0]`: the custom file name without its last extension. */
  function Stem(filename: string): string {
    SplitExt(filename).0
  }

  /** `_get_output_template`. */
  function OutputTemplate(cfg: Config): string {
    if Given(cfg.filename) then
      var baseName := Stem(cfg.filename.value);
      var template := if cfg.audioOnly then baseName + ".%(ext)s" else baseName + ".%(ext)s";
      Render(Join(cfg.outputDir, Parse(template)))
    else
      Render(Join(cfg.outputDir, TitlePath))
  }

  /** `TitlePath` is what parsing the title template gives. */
  lemma TitleTemplateParsed()
    ensures Parse(TitleTemplate) == TitlePath
  {
    ParsePart(TitleTemplate);
  }

  /** Audio and video downloads share one template. */
  lemma TemplateSameForAudio(cfg: Config, audioOnly: bool)
    ensures OutputTemplate(cfg.(audioOnly := audioOnly)) == OutputTemplate(cfg)
  {
  }

  /** A string's basename survives parsing, joining below a directory and printing. */
  lemma JoinedBasename(d: Path, s: string)
    requires WellFormed(d) && IsPart(Basename(s))
    ensures Basename(Render(Join(d, Parse(s)))) == Basename(s)
  {
    ParseLast(s);
    RenderBasename(Join(d, Parse(s)));
  }

  /**
   * The file-name part of the template always ends in the extension field,
   * after the title or after the last component of the custom name stripped
   * of its extension, so yt-dlp always chooses the extension.
   */
  lemma TemplateBasename(cfg: Config)
    requires WellFormed(cfg.outputDir)
    ensures Basename(OutputTemplate(cfg)) ==
      (if Given(cfg.filename) then Basename(Stem(cfg.filename.value)) else "%(title)s") + ExtField
  {
    if Given(cfg.filename) {
      var s := Stem(cfg.filename.value) + ExtField;
      assert Basename(s) == Basename(Stem(cfg.filename.value)) + ExtField by {
        BasenameConcat(Stem(cfg.filename.value), ExtField);
      }
      JoinedBasename(cfg.outputDir, s);
    } else {
      assert TitlePath.parts[0] == "%(title)s" + ExtField;
      RenderBasename(Join(cfg.outputDir, TitlePath));
    }
  }

  /** A non-empty name keeps a non-empty stem. */
  lemma StemNonEmpty(filename: string)
    requires filename != ""
    ensures Stem(filename) != ""
  {
    var sepIndex, dotIndex := RFind(filename, '/'), RFind(filename, '.');
    SplitExtAt(filename, sepIndex, dotIndex);
  }

  /**
   * Without a custom name the template is the output directory followed by
   * `%(title)s.%(ext)s`; with a custom name free of separators it is the
   * directory followed by the stripped name and `.%(ext)s`.
   */
  lemma TemplateText(cfg: Config)
    requires WellFormed(cfg.outputDir)
    requires Given(cfg.filename) ==> '/' !in cfg.filename.value
    ensures !Given(cfg.filename) ==> OutputTemplate(cfg) == DirPrefix(cfg.outputDir) + TitleTemplate
    ensures Given(cfg.filename) ==>
      OutputTemplate(cfg) == DirPrefix(cfg.outputDir) + (Stem(cfg.filename.value) + ExtField)
  {
    if Given(cfg.filename) {
      var fn := cfg.filename.value;
      StemNonEmpty(fn);
      assert fn == Stem(fn) + SplitExt(fn).1;
      assert '/' !in Stem(fn) + ExtField;
      ParsePart(Stem(fn) + ExtField);
      RenderJoinPart(cfg.outputDir, Stem(fn) + ExtField);
    } else {
      RenderJoinPart(cfg.outputDir, TitleTemplate);
    }
  }

  // ------------------------------------------------------- options record

  /** The progress hook the options name: the downloader's own, or one a caller attached. */
  datatype ProgressHook = PrintProgress | CustomHook(id: nat)

  datatype PostProcessor = PostProcessor(key: string, preferredCodec: string, preferredQuality: string)

  /** The values the options dictionary holds. */
  datatype OptionValue =
    | Str(s: string)
    | Flag(b: bool)
    | Hooks(hooks: seq<ProgressHook>)
    | Processors(list: seq<PostProcessor>)

  /** Every key an options record can have. */
  const OptionKeys: set<string> := {
    "format", "outtmpl", "quiet", "no_warnings", "progress_hooks",
    "cookiefile", "postprocessors", "merge_output_format"
  }

  /**
   * `_get_ydl_opts`: builds the options dictionary entry by entry.
   * `customHook` is the hook a caller may have attached to the downloader.
   */
  method GetYdlOpts(cfg: Config, customHook: Option<ProgressHook>) returns (opts: map<string, OptionValue>)
    ensures "format" in opts && opts["format"] == Str(FormatSelector(cfg))
    ensures "outtmpl" in opts && opts["outtmpl"] == Str(OutputTemplate(cfg))
    ensures "quiet" in opts && opts["quiet"] == Flag(false)
    ensures "no_warnings" in opts && opts["no_warnings"] == Flag(false)
    ensures "progress_hooks" in opts && opts["progress_hooks"] == Hooks([customHook.GetOr(PrintProgress)])
    ensures "cookiefile" in opts <==> Given(cfg.cookies)
    ensures "cookiefile" in opts ==> opts["cookiefile"] == Str(cfg.cookies.value)
    ensures "postprocessors" in opts <==> cfg.audioOnly
    ensures "postprocessors" in opts ==>
      opts["postprocessors"] == Processors([PostProcessor("FFmpegExtractAudio", OrElse(cfg.format, "mp3"), "192")])
    ensures "merge_output_format" in opts <==> !cfg.audioOnly && Given(cfg.format)
    ensures "merge_output_format" in opts ==> opts["merge_output_format"] == Str(cfg.format.value)
    ensures opts.Keys <= OptionKeys
  {
    var selector := FormatSelector(cfg);
    var template := OutputTemplate(cfg);
    var progressHook := customHook.GetOr(PrintProgress);
    opts := map[
      "format" := Str(selector),
      "outtmpl" := Str(template),
      "quiet" := Flag(false),
      "no_warnings" := Flag(false),
      "progress_hooks" := Hooks([progressHook])
    ];
    if Given(cfg.cookies) {
      opts := opts["cookiefile" := Str(cfg.cookies.value)];
    }
    if cfg.audioOnly {
      var audioCodec := OrElse(cfg.format, "mp3");
      opts := opts["postprocessors" := Processors([PostProcessor("FFmpegExtractAudio", audioCodec, "192")])];
      if !Given(cfg.filename) {
        opts := opts["outtmpl" := Str(Render(Join(cfg.outputDir, TitlePath)))];
      }
    } else {
      if Given(cfg.format) {
        opts := opts["merge_output_format" := Str(cfg.format.value)];
      }
    }
  }

  // ------------------------------------------------------------ final path

  /** The extension the final path announces when a custom name was given. */
  function FinalExt(cfg: Config, reportedExt: Option<string>): (e: string)
    ensures Given(cfg.format) ==> e == cfg.format.value
    ensures !Given(cfg.format) ==> e == if cfg.audioOnly then "mp3" else reportedExt.GetOr("mp4")
  {
    if cfg.audioOnly then OrElse(cfg.format, "mp3") else OrElse(cfg.format, reportedExt.GetOr("mp4"))
  }

  /**
   * The path `download` returns (lines after the download itself).
   * `reportedExt` is the `ext` entry of the metadata yt-dlp returned, if any,
   * `prepared` the file name yt-dlp's `prepare_filename` gives, and `cwd`
   * the working directory `absolute()` resolves against.
   */
  function FinalPath(cfg: Config, reportedExt: Option<string>, prepared: string, cwd: string): string {
    if Given(cfg.filename) then
      var baseName := Stem(cfg.filename.value);
      var ext := FinalExt(cfg, reportedExt);
      var finalFilename := baseName + "." + ext;
      Render(Absolute(Join(cfg.outputDir, Parse(finalFilename)), cwd))
    else if cfg.audioOnly then
      var base := SplitExt(prepared).0;
      var ext := OrElse(cfg.format, "mp3");
      Render(Absolute(Parse(base + "." + ext), cwd))
    else if Given(cfg.format) then
      var base := SplitExt(prepared).0;
      Render(Absolute(Parse(base + "." + cfg.format.value), cwd))
    else
      Render(Absolute(Parse(prepared), cwd))
  }

  /** An explicitly requested format decides the extension, whatever yt-dlp reports. */
  lemma FormatOverridesReportedExt(cfg: Config, e1: Option<string>, e2: Option<string>, prepared: string, cwd: string)
    requires Given(cfg.format) || cfg.audioOnly
    ensures FinalPath(cfg, e1, prepared, cwd) == FinalPath(cfg, e2, prepared, cwd)
  {
  }

  /** A string's basename survives parsing, joining, making absolute and printing. */
  lemma AbsoluteBasename(d: Path, s: string, cwd: string)
    requires WellFormed(d) && IsPart(Basename(s))
    ensures Basename(Render(Absolute(Join(d, Parse(s)), cwd))) == Basename(s)
    ensures Basename(Render(Absolute(Parse(s), cwd))) == Basename(s)
  {
    var p := Parse(s);
    assert |p.parts| >= 1 && p.parts[|p.parts| - 1] == Basename(s) by {
      ParseLast(s);
    }
    var j := Join(d, p);
    assert WellFormed(j) && |j.parts| >= 1 && j.parts[|j.parts| - 1] == Basename(s);
    assert Basename(Render(Absolute(j, cwd))) == Basename(s) by {
      AbsoluteKeepsLast(j, cwd);
    }
    assert Basename(Render(Absolute(p, cwd))) == Basename(s) by {
      AbsoluteKeepsLast(p, cwd);
    }
  }

  /** Resolving a path keeps its last component, so printing it ends in that component. */
  lemma AbsoluteKeepsLast(p: Path, cwd: string)
    requires WellFormed(p) && |p.parts| >= 1
    ensures Basename(Render(Absolute(p, cwd))) == p.parts[|p.parts| - 1]
  {
    var q := Absolute(p, cwd);
    assert |q.parts| >= 1 && q.parts[|q.parts| - 1] == p.parts[|p.parts| - 1];
    RenderBasename(q);
  }

  /** Appending "." and an extension to a stem: the basename and extension that result. */
  lemma AppendExt(stem: string, e: string)
    requires '.' !in e && '/' !in e
    requires !AllDots(Basename(stem))
    ensures Basename(stem + "." + e) == Basename(stem) + "." + e
    ensures IsPart(Basename(stem) + "." + e)
    ensures SplitExt(Basename(stem) + "." + e) == (Basename(stem), "." + e)
  {
    assert stem + "." + e == stem + ("." + e);
    BasenameConcat(stem, "." + e);
    var b := Basename(stem);
    BasenameNoSep(b);
    ReplaceExt(b, e);
  }

  /**
   * Whenever the final path writes its own extension (a custom name,
   * audio-only mode, or an explicit format), the final file's name is the
   * name's last component stripped of its old extension, a dot, and the
   * chosen extension, and `splitext` reads that extension back from the path.
   * The stripped name must not end in a component made only of dots, and the
   * extension must hold neither dots nor separators.
   */
  lemma FinalPathExtension(cfg: Config, reportedExt: Option<string>, prepared: string, cwd: string)
    requires WellFormed(cfg.outputDir)
    requires Given(cfg.filename) || cfg.audioOnly || Given(cfg.format)
    requires '.' !in FinalExt(cfg, reportedExt) && '/' !in FinalExt(cfg, reportedExt)
    requires !AllDots(Basename(if Given(cfg.filename) then cfg.filename.value else prepared))
    ensures var name := if Given(cfg.filename) then cfg.filename.value else prepared;
      var path := FinalPath(cfg, reportedExt, prepared, cwd);
      && Basename(path) == Basename(Stem(name)) + "." + FinalExt(cfg, reportedExt)
      && SplitExt(path).1 == "." + FinalExt(cfg, reportedExt)
  {
    var name := if Given(cfg.filename) then cfg.filename.value else prepared;
    var e := FinalExt(cfg, reportedExt);
    var stem := Stem(name);
    SplitExtStem(name);
    AppendExt(stem, e);
    AbsoluteBasename(cfg.outputDir, stem + "." + e, cwd);
    var path := FinalPath(cfg, reportedExt, prepared, cwd);
    SplitExtBasename(path);
  }

  /** In video mode without a format or custom name, the prepared file keeps its name and extension. */
  lemma FinalPathKeepsPreparedName(cfg: Config, reportedExt: Option<string>, prepared: string, cwd: string)
    requires !Given(cfg.filename) && !cfg.audioOnly && !Given(cfg.format)
    requires IsPart(Basename(prepared))
    ensures Basename(FinalPath(cfg, reportedExt, prepared, cwd)) == Basename(prepared)
    ensures SplitExt(FinalPath(cfg, reportedExt, prepared, cwd)).1 == SplitExt(prepared).1
  {
    AbsoluteBasename(Path("", []), prepared, cwd);
    SplitExtBasename(FinalPath(cfg, reportedExt, prepared, cwd));
    SplitExtBasename(prepared);
  }

  /** The final path is absolute whenever the working directory is. */
  lemma FinalPathIsAbsolute(cfg: Config, reportedExt: Option<string>, prepared: string, cwd: string)
    requires WellFormed(cfg.outputDir)
    requires |cwd| >= 1 && cwd[0] == '/'
    ensures var path := FinalPath(cfg, reportedExt, prepared, cwd); |path| >= 1 && path[0] == '/'
  {
    var named := if Given(cfg.filename) then Stem(cfg.filename.value) + "." + FinalExt(cfg, reportedExt)
      else if cfg.audioOnly then SplitExt(prepared).0 + "." + OrElse(cfg.format, "mp3")
      else if Given(cfg.format) then SplitExt(prepared).0 + "." + cfg.format.value
      else prepared;
    var p := if Given(cfg.filename) then Join(cfg.outputDir, Parse(named)) else Parse(named);
    assert FinalPath(cfg, reportedExt, prepared, cwd) == Render(Absolute(p, cwd));
    AbsoluteRooted(p, cwd);
    RenderRooted(Absolute(p, cwd));
  }

  /**
   * With a custom name free of separators, the final path is the template
   * with its extension field filled in and the directory made absolute.
   */
  lemma FinalPathFillsTemplate(cfg: Config, reportedExt: Option<string>, prepared: string, cwd: string)
    requires WellFormed(cfg.outputDir)
    requires Given(cfg.filename) && '/' !in cfg.filename.value
    requires '/' !in FinalExt(cfg, reportedExt)
    ensures OutputTemplate(cfg) == DirPrefix(cfg.outputDir) + (Stem(cfg.filename.value) + ExtField)
    ensures FinalPath(cfg, reportedExt, prepared, cwd) ==
      DirPrefix(Absolute(cfg.outputDir, cwd)) + (Stem(cfg.filename.value) + "." + FinalExt(cfg, reportedExt))
  {
    TemplateText(cfg);
    FinalPathText(cfg, reportedExt, prepared, cwd);
  }

  /** The final path for a custom name free of separators, spelled out. */
  lemma FinalPathText(cfg: Config, reportedExt: Option<string>, prepared: string, cwd: string)
    requires WellFormed(cfg.outputDir)
    requires Given(cfg.filename) && '/' !in cfg.filename.value
    requires '/' !in FinalExt(cfg, reportedExt)
    ensures FinalPath(cfg, reportedExt, prepared, cwd) ==
      DirPrefix(Absolute(cfg.outputDir, cwd)) + (Stem(cfg.filename.value) + "." + FinalExt(cfg, reportedExt))
  {
    var fn := cfg.filename.value;
    var e := FinalExt(cfg, reportedExt);
    var x := Stem(fn) + "." + e;
    NamedPart(fn, e);
    AbsoluteJoinPart(cfg.outputDir, x, cwd);
  }

  /** A separator-free custom name with a new extension is a single path component. */
  lemma NamedPart(fn: string, e: string)
    requires fn != "" && '/' !in fn && '/' !in e
    ensures IsPart(Stem(fn) + "." + e)
  {
    StemNonEmpty(fn);
    assert fn == Stem(fn) + SplitExt(fn).1;
  }

  /** `str((d / x).absolute())` for a single component `x`. */
  lemma AbsoluteJoinPart(d: Path, x: string, cwd: string)
    requires IsPart(x)
    ensures Render(Absolute(Join(d, Parse(x)), cwd)) == DirPrefix(Absolute(d, cwd)) + x
  {
    ParsePart(x);
    AbsoluteJoin(d, Path("", [x]), cwd);
    RenderJoinPart(Absolute(d, cwd), x);
  }

  // -------------------------------------------------------------- examples

  /** The link of the examples below, `https://youtube.com/watch?v=abc`, in its three pieces. */
  const ExampleLink: string := "https://" + "youtube.com" + "/watch?v=abc"

  /** A lower-case link made of a prefix, a domain and a rest starts with the prefix and mentions the domain. */
  lemma LinkSpellsDomain(pre: string, domain: string, post: string)
    requires IsLowerCase(pre) && IsLowerCase(domain) && IsLowerCase(post)
    ensures StartsWith(pre + domain + post, pre)
    ensures Contains(Lower(pre + domain + post), domain)
  {
    var link := pre + domain + post;
    assert link[..|pre|] == pre;
    assert IsLowerCase(link);
    LowerIsLowerCase(link);
    assert link[|pre|..|pre| + |domain|] == domain;
    assert OccursAt(link, domain, |pre|);
    ContainsOccurs(link, domain);
  }

  lemma ExampleLinkAccepted()
    ensures HasWebScheme(ExampleLink)
    ensures MentionsAnyDomain(Lower(ExampleLink), ["youtube.com", "youtu.be"])
  {
    assert IsLowerCase("https://") && IsLowerCase("youtube.com") && IsLowerCase("/watch?v=abc");
    LinkSpellsDomain("https://", "youtube.com", "/watch?v=abc");
    var domains := ["youtube.com", "youtu.be"];
    assert Contains(Lower(ExampleLink), domains[0]);
  }

  /** pathlib drops the leading `./` of `./out`. */
  lemma ExampleDirParsed()
    ensures Parse("./out") == Path("", ["out"])
  {
    assert Split("./out", '/') == [".", "out"] by {
      assert "./out" == "." + ['/'] + "out";
      SplitNoSep("out", '/');
      SplitAtSep(".", "out", '/');
    }
  }

  /** The request of the example below: YouTube, best quality, saved under `./out`. */
  const ExampleRequest: Request :=
    Request("youtube", ExampleLink, Some("best"), Some("./out"), false, None, None, None)

  /** What the constructor stores for `ExampleRequest`. */
  lemma ExampleFields(cwd: string)
    ensures ConstructorFields(ExampleRequest, cwd) ==
      Fields("youtube", ExampleLink, "best", Path("", ["out"]), false, None, None, None)
  {
    YoutubeNormal();
    ExampleDirParsed();
  }

  /** `youtube` is already normalised. */
  lemma YoutubeNormal()
    ensures NormalizePlatform("youtube") == "youtube"
  {
    assert Lower("youtube") == "youtube" by {
      assert IsLowerCase("youtube");
      LowerIsLowerCase("youtube");
    }
    assert "youtube"[0] != "twitter"[0];
  }

  lemma YoutubeDomains()
    ensures DomainsOf("youtube") == Some(["youtube.com", "youtu.be"])
  {
    assert Platforms[0].0 == "youtube";
  }

  /** The downloader `ExampleRequest` constructs. */
  const ExampleConfig: Config :=
    Config("youtube", ExampleLink, Best, Path("", ["out"]), false, None, None, None)

  /** The YouTube request at `best` quality saved under `./out` constructs without a warning. */
  lemma ExampleYoutubeBest(cwd: string, cookiesIsFile: bool)
    ensures Construct(ExampleRequest, cwd, cookiesIsFile) == Construction(None, Success(ExampleConfig))
  {
    ExampleFields(cwd);
    YoutubeDomains();
    ExampleLinkAccepted();
  }

  /**
   * Its selector prefers the best video with the best audio, and its
   * template names the file after the title inside `out`.
   */
  lemma ExampleYoutubeOptions()
    ensures FormatSelector(ExampleConfig) == "bestvideo+bestaudio/best"
    ensures OutputTemplate(ExampleConfig) == "out/" + TitleTemplate
  {
    assert DirPrefix(ExampleConfig.outputDir) == "out/";
    TemplateText(ExampleConfig);
  }

  /** A name with neither dots nor separators is its own basename and stem. */
  lemma PlainName(name: string)
    requires name != [] && '.' !in name && '/' !in name
    ensures Basename(name) == name && !AllDots(name) && Stem(name) == name
  {
    BasenameNoSep(name);
    assert name[0] != '.';
    assert RFind(name, '.') == -1;
  }

  /**
   * A custom name with neither dots nor separators and an explicit format
   * (say `clip` and `webm`) give the final file the name `clip.webm`, in
   * either mode and whatever yt-dlp reports.
   */
  lemma PlainNameWithFormat(cfg: Config, reportedExt: Option<string>, prepared: string, cwd: string)
    requires WellFormed(cfg.outputDir)
    requires Given(cfg.filename) && '.' !in cfg.filename.value && '/' !in cfg.filename.value
    requires Given(cfg.format) && '.' !in cfg.format.value && '/' !in cfg.format.value
    ensures Basename(FinalPath(cfg, reportedExt, prepared, cwd)) == cfg.filename.value + "." + cfg.format.value
  {
    PlainName(cfg.filename.value);
    FinalPathExtension(cfg, reportedExt, prepared, cwd);
  }
}
