/** One conversion batch of the main window (`convert_files` and `makeFolder`): the extension
    filter that splits the input into images and unsupported files, where each output file goes,
    the converter command run for each image, and the progress and status shown afterwards.
    Creating a directory is an oracle `makedirs` (true when it succeeded or already existed), and
    running the converter is recorded by appending its command line to a log. */
module Conversion {

  import opened Seqs
  import opened PosixPath
  import opened Decimal
  import opened ShellWords
  import opened Settings

  /** The extensions accepted for conversion, compared after lower-casing. */
  const SupportedExtensions: seq<string> := [".jpg", ".jpeg", ".png", ".gif"]
  /** Put in front of the source file name to name the converted file. */
  const OutputPrefix: string := "변환된_"
  const OutputExtension: string := ".webp"

  /** `str.lower` on the ASCII letters. */
  function LowerChar(c: char): (r: char)
    ensures r == ExtSep <==> c == ExtSep
  {
    if 'A' <= c <= 'Z' then (c as int + ('a' as int - 'A' as int)) as char else c
  }

  function Lower(s: string): (r: string)
    ensures |r| == |s|
    ensures forall i :: 0 <= i < |s| ==> r[i] == LowerChar(s[i])
  {
    seq(|s|, i requires 0 <= i < |s| => LowerChar(s[i]))
  }

  /** The test of `convert_files`: the lower-cased `splitext` extension is on the allow-list. */
  predicate IsImageFile(filename: string) {
    Lower(Extension(filename)) in SupportedExtensions
  }

  /** A file name, read without `splitext`: it ends in a supported extension, in any case, and
      what comes before that extension is neither empty nor dots only. */
  predicate EndsWithSupportedExtension(name: string) {
    exists k :: 0 <= k < |name| && Lower(name[k..]) in SupportedExtensions && HasNonDot(name[..k])
  }

  /** Each supported extension is a dot followed by letters. */
  lemma SupportedExtensionShape(x: string)
    requires Lower(x) in SupportedExtensions
    ensures |x| > 1 && x[0] == ExtSep
    ensures forall j :: 1 <= j < |x| ==> x[j] != ExtSep
  {
    var e := Lower(x);
    assert e == ".jpg" || e == ".jpeg" || e == ".png" || e == ".gif";
    assert |e| > 1 && e[0] == ExtSep && forall j :: 1 <= j < |e| ==> e[j] != ExtSep;
    assert LowerChar(x[0]) == e[0];
    forall j | 1 <= j < |x| ensures x[j] != ExtSep {
      assert LowerChar(x[j]) == e[j];
    }
  }

  /** `splitext` cuts a plain name at a dot that no later dot follows and that something
      other than dots precedes. */
  lemma NameExtStart(n: string, k: int)
    requires Sep !in n
    requires 0 <= k < |n| && n[k] == ExtSep
    requires forall j :: k < j < |n| ==> n[j] != ExtSep
    requires HasNonDot(n[..k])
    ensures ExtStart(n) == k
  {
    assert RFind(n, Sep) == -1;
    assert RFind(n, ExtSep) == k;
    assert n[0..k] == n[..k];
  }

  lemma NameExtStartHasNonDot(n: string)
    requires Sep !in n
    requires ExtStart(n) < |n|
    ensures HasNonDot(n[..ExtStart(n)])
  {
    assert RFind(n, Sep) == -1;
    assert n[0..ExtStart(n)] == n[..ExtStart(n)];
  }

  /** The allow-list test on a plain name, in both directions. */
  lemma NameIsImageIff(n: string)
    requires Sep !in n
    ensures Lower(Extension(n)) in SupportedExtensions <==> EndsWithSupportedExtension(n)
  {
    if Lower(Extension(n)) in SupportedExtensions {
      SupportedExtensionEnds(n);
    }
    if EndsWithSupportedExtension(n) {
      EndingIsExtension(n);
    }
  }

  lemma SupportedExtensionEnds(n: string)
    requires Sep !in n
    requires Lower(Extension(n)) in SupportedExtensions
    ensures EndsWithSupportedExtension(n)
  {
    var e := ExtStart(n);
    assert Extension(n) == n[e..];
    SupportedExtensionShape(n[e..]);
    NameExtStartHasNonDot(n);
  }

  lemma EndingIsExtension(n: string)
    requires Sep !in n
    requires EndsWithSupportedExtension(n)
    ensures Lower(Extension(n)) in SupportedExtensions
  {
    var k :| 0 <= k < |n| && Lower(n[k..]) in SupportedExtensions && HasNonDot(n[..k]);
    SupportedExtensionShape(n[k..]);
    forall j | k < j < |n| ensures n[j] != ExtSep {
      assert n[k..][j - k] == n[j];
    }
    NameExtStart(n, k);
    assert Extension(n) == n[ExtStart(n)..];
  }

  /** A file is accepted exactly when its basename ends in a supported extension, in any
      case, after something that is not only dots: `A.PNG` is accepted, while `.png` (no
      extension, by `splitext`'s rule for leading dots), `a.webp` and `noext` are not. */
  lemma IsImageFileIff(filename: string)
    ensures IsImageFile(filename) <==> EndsWithSupportedExtension(Basename(filename))
  {
    var h := Head(filename);
    var n := Basename(filename);
    SplitExtOfConcat(h, n);
    NameIsImageIff(n);
  }

  /** `A.PNG` is accepted: the test ignores case. */
  lemma UpperCaseAccepted()
    ensures IsImageFile("A.PNG")
  {
    assert Extension("A.PNG") == ".PNG" by {
      assert RFind("A.PNG", Sep) == -1;
      assert "A.PNG"[1] == ExtSep && "A.PNG"[2] != ExtSep && "A.PNG"[3] != ExtSep && "A.PNG"[4] != ExtSep;
      assert RFind("A.PNG", ExtSep) == 1;
      assert HasNonDot("A.PNG"[0..1]) by { assert "A.PNG"[0..1][0] == 'A'; }
    }
    assert Lower(".PNG") == ".png";
  }

  /** `a.webp` is not accepted: its extension is not on the allow-list. */
  lemma WebpRejected()
    ensures !IsImageFile("a.webp")
  {
    assert Extension("a.webp") == ".webp" by {
      assert RFind("a.webp", Sep) == -1;
      assert "a.webp"[1] == ExtSep && Sep !in "a.webp"[2..] && ExtSep !in "a.webp"[2..];
      assert RFind("a.webp", ExtSep) == 1;
      assert HasNonDot("a.webp"[0..1]) by { assert "a.webp"[0..1][0] == 'a'; }
    }
    assert Lower(".webp") == ".webp";
  }

  /** `noext` is not accepted: it has no extension at all. */
  lemma NoExtensionRejected()
    ensures !IsImageFile("noext")
  {
    assert RFind("noext", ExtSep) == -1;
    assert Extension("noext") == "";
  }

  /** `.png` is not accepted: a leading dot does not start an extension. */
  lemma DotFileRejected()
    ensures !IsImageFile(".png")
  {
    var p := ".png";
    assert Sep !in p;
    assert RFind(p, Sep) == -1;
    assert p[0] == ExtSep && ExtSep !in p[1..];
    assert RFind(p, ExtSep) == 0;
    assert !HasNonDot(p[0..0]);
    assert ExtStart(p) == |p|;
    assert Extension(p) == [];
  }

  /** The loop at the top of `convert_files`: each file goes to the list the test picks, and
      each list keeps the input order (`FilterRejectSplit`: together they hold every input
      exactly once). */
  method PartitionFiles(filenames: seq<string>) returns (images: seq<string>, unsupported: seq<string>)
    ensures images == Filter(IsImageFile, filenames)
    ensures unsupported == Reject(IsImageFile, filenames)
    ensures forall f :: f in filenames ==> (f in images <==> IsImageFile(f))
    ensures forall f :: f in filenames ==> (f in unsupported <==> !IsImageFile(f))
  {
    images, unsupported := [], [];
    for i := 0 to |filenames|
      invariant images == Filter(IsImageFile, filenames[..i])
      invariant unsupported == Reject(IsImageFile, filenames[..i])
    {
      assert filenames[..i + 1][..i] == filenames[..i];
      if IsImageFile(filenames[i]) {
        images := images + [filenames[i]];
      } else {
        unsupported := unsupported + [filenames[i]];
      }
    }
    assert filenames[..|filenames|] == filenames;
    forall f | f in filenames
      ensures (f in images <==> IsImageFile(f)) && (f in unsupported <==> !IsImageFile(f))
    {
      if IsImageFile(f) { FilterKeeps(IsImageFile, filenames, f); }
      else { RejectKeeps(IsImageFile, filenames, f); }
    }
  }

  /** The name part of a file name up to its last dot (all of it when there is no dot). */
  function BeforeLastDot(name: string): (r: string)
    ensures |r| <= |name| && r == name[..|r|]
  {
    var k := RFind(name, ExtSep);
    if k >= 0 then name[..k] else name
  }

  /** The quoted output path of `makeFolder` for a source file and a chosen directory. */
  function OutputFileName(directory: string, filename: string): string {
    Quoted(SplitExt(Join(directory, OutputPrefix + Basename(filename))).0 + OutputExtension)
  }

  /** The name of the converted file: the prefix, the source's name up to its last dot, `.webp`. */
  function OutputBaseName(filename: string): (m: string)
    ensures Sep !in m && !IsAbsolute(m)
  {
    OutputPrefixShape();
    var b := Basename(filename);
    var stem := BeforeLastDot(b);
    assert Sep !in stem by {
      forall i | 0 <= i < |stem| ensures stem[i] != Sep {
        assert stem[i] == b[i];
      }
    }
    var m := OutputPrefix + stem + OutputExtension;
    assert m[0] == OutputPrefix[0];
    m
  }

  lemma OutputPrefixShape()
    ensures Sep !in OutputPrefix && ExtSep !in OutputPrefix
    ensures |OutputPrefix| > 0 && OutputPrefix[0] != Sep && OutputPrefix[0] != ExtSep
  {
  }

  /** Cutting the extension off `OutputPrefix + name` cuts at the name's last dot: the prefix
      has no dot and makes the part before that dot non-empty. */
  lemma PrefixedRoot(name: string)
    requires Sep !in name
    ensures SplitExt(OutputPrefix + name).0 == OutputPrefix + BeforeLastDot(name)
  {
    OutputPrefixShape();
    var n := OutputPrefix + name;
    RFindConcat(OutputPrefix, name, Sep);
    RFindConcat(OutputPrefix, name, ExtSep);
    assert RFind(OutputPrefix, ExtSep) == -1;
    assert RFind(OutputPrefix, Sep) == -1;
    assert RFind(name, Sep) == -1;
    var k := RFind(name, ExtSep);
    if k >= 0 {
      assert n[0..|OutputPrefix| + k][0] == OutputPrefix[0];
      assert ExtStart(n) == |OutputPrefix| + k;
      assert n[..|OutputPrefix| + k] == OutputPrefix + name[..k];
    } else {
      assert ExtStart(n) == |n|;
    }
  }

  /** The output file lies in the chosen directory and is named by the prefix, the source's
      name up to its last dot, and `.webp`; the whole path is wrapped in double quotes. */
  lemma OutputFileNameShape(directory: string, filename: string)
    ensures OutputFileName(directory, filename) == Quoted(Join(directory, OutputBaseName(filename)))
  {
    var name := Basename(filename);
    PrefixedNameInDirectory(directory, name);
    assert OutputBaseName(filename) == OutputPrefix + BeforeLastDot(name) + OutputExtension;
  }

  lemma PrefixedNameInDirectory(directory: string, name: string)
    requires Sep !in name
    ensures SplitExt(Join(directory, OutputPrefix + name)).0 + OutputExtension
         == Join(directory, OutputPrefix + BeforeLastDot(name) + OutputExtension)
  {
    OutputPrefixShape();
    var n := OutputPrefix + name;
    var root := OutputPrefix + BeforeLastDot(name);
    assert !IsAbsolute(n) by { assert n[0] == OutputPrefix[0]; }
    assert !IsAbsolute(root + OutputExtension) by { assert (root + OutputExtension)[0] == OutputPrefix[0]; }
    PrefixedRoot(name);
    RootInDirectory(directory, n, OutputExtension);
  }

  lemma RootInDirectory(directory: string, n: string, x: string)
    requires Sep !in n && !IsAbsolute(n) && !IsAbsolute(SplitExt(n).0 + x)
    ensures SplitExt(Join(directory, n)).0 + x == Join(directory, SplitExt(n).0 + x)
  {
    SplitExtOfJoin(directory, n);
    JoinRelative(directory, SplitExt(n).0 + x);
    AppendAfterPrefix(SplitExt(Join(directory, n)).0, JoinPrefix(directory), SplitExt(n).0, x,
                      Join(directory, SplitExt(n).0 + x));
  }

  lemma AppendAfterPrefix(a: string, j: string, r: string, x: string, b: string)
    requires a == j + r && b == j + (r + x)
    ensures a + x == b
  {
  }

  /** Where `makeFolder` puts the converted file. */
  datatype Target = Target(directory: string, outputName: string)

  /** The output path is wrapped in double quotes; inside them, its basename is the prefix,
      the source's name up to its last dot and `.webp`, and its directory part is the directory
      chosen, whenever that does not end with a separator. */
  lemma OutputNameParts(directory: string, filename: string)
    ensures var o := OutputFileName(directory, filename);
      |o| >= 2 && o[0] == Quote && o[|o| - 1] == Quote &&
      var inner := o[1..|o| - 1];
      Basename(inner) == OutputPrefix + BeforeLastDot(Basename(filename)) + OutputExtension &&
      (|directory| == 0 || directory[|directory| - 1] != Sep ==> Dirname(inner) == directory)
  {
    OutputFileNameShape(directory, filename);
    var m := OutputBaseName(filename);
    var inner := Join(directory, m);
    assert Quoted(inner)[1..|Quoted(inner)| - 1] == inner;
    JoinThenSplit(directory, m);
  }

  /** The directory `makeFolder` asks to create under a policy other than "original":
      "subfolder" joins the path onto the source's directory (so an absolute path is used as
      it is), "custom" uses the path itself, and any other policy uses the default folder name
      under the source's directory. */
  function WantedDirectory(locationType: string, locationPath: string, source: string): string {
    if locationType == Subfolder then Join(source, locationPath)
    else if locationType == Custom then locationPath
    else Join(source, DefaultFolderName)
  }

  /** The directory `makeFolder` settles on: "original" writes next to the source without
      creating anything; every other policy creates its directory first and falls back to the
      source's directory when that fails. */
  function OutputDirectory(locationType: string, locationPath: string, filename: string,
                           makedirs: string -> bool): (dir: string)
    ensures locationType == Original ==> dir == Dirname(filename)
    ensures locationType == Subfolder && makedirs(Join(Dirname(filename), locationPath)) ==>
      dir == Join(Dirname(filename), locationPath)
    ensures locationType == Custom && makedirs(locationPath) ==> dir == locationPath
    ensures locationType !in {Original, Subfolder, Custom} && makedirs(Join(Dirname(filename), DefaultFolderName)) ==>
      dir == Join(Dirname(filename), DefaultFolderName)
    ensures locationType != Original && !makedirs(WantedDirectory(locationType, locationPath, Dirname(filename))) ==>
      dir == Dirname(filename)
    ensures dir == Dirname(filename) || makedirs(dir)
  {
    var source := Dirname(filename);
    if locationType == Original then source
    else
      var wanted := WantedDirectory(locationType, locationPath, source);
      if makedirs(wanted) then wanted else source
  }

  /** `makeFolder`: the policy's output directory, and in it the converted file's name, quoted. */
  function MakeFolder(locationType: string, locationPath: string, filename: string,
                      makedirs: string -> bool): (t: Target)
    ensures t.directory == OutputDirectory(locationType, locationPath, filename, makedirs)
    ensures t.outputName == Quoted(Join(t.directory, OutputBaseName(filename)))
  {
    var directory := OutputDirectory(locationType, locationPath, filename, makedirs);
    OutputFileNameShape(directory, filename);
    Target(directory, OutputFileName(directory, filename))
  }

  /** A subfolder given as an absolute path behaves exactly like a custom folder. */
  lemma AbsoluteSubfolderIsCustom(locationPath: string, filename: string, makedirs: string -> bool)
    requires IsAbsolute(locationPath)
    ensures MakeFolder(Subfolder, locationPath, filename, makedirs)
         == MakeFolder(Custom, locationPath, filename, makedirs)
  {
  }

  /** The `-q` option text interpolated into every command. */
  function QualityOption(quality: int): string {
    " -q " + IntToString(quality)
  }

  /** The command line `convert_files` runs for one image. The source builds it in two
      branches, one for GIF sources and one for the rest, from the same template, so a single
      template models both. */
  function Command(cwebp: string, filename: string, option: string, outputName: string): string {
    Quoted(cwebp) + " " + Quoted(filename) + " " + option + " -o " + outputName
  }

  predicate IsInfix(x: string, s: string) {
    exists i :: 0 <= i <= |s| - |x| && x <= s[i..]
  }

  /** Every command carries the quality option. */
  lemma CommandHasQualityOption(cwebp: string, filename: string, quality: int, outputName: string)
    ensures IsInfix(QualityOption(quality), Command(cwebp, filename, QualityOption(quality), outputName))
  {
    var o := QualityOption(quality);
    var pre := Quoted(cwebp) + " " + Quoted(filename) + " ";
    var s := Command(cwebp, filename, o, outputName);
    assert s == pre + (o + (" -o " + outputName));
    assert s[|pre|..] == o + (" -o " + outputName);
  }

  lemma RenderedNumberIsPlain(quality: int)
    ensures Plain(IntToString(quality)) && |IntToString(quality)| > 0
  {
    var q := IntToString(quality);
    forall i | 0 <= i < |q| ensures q[i] != Quote && q[i] != Space {
    }
  }

  /** The double-quote-and-space reader splits each command, for GIF and other sources alike,
      into the converter, the source, `-q`, the quality, `-o` and the output path, provided
      none of the three paths contains a double quote. */
  lemma CommandWords(cwebp: string, filename: string, quality: int, outputPath: string)
    requires NoQuote(cwebp) && NoQuote(filename) && NoQuote(outputPath)
    ensures Words(Command(cwebp, filename, QualityOption(quality), Quoted(outputPath)))
         == [cwebp, filename, "-q", IntToString(quality), "-o", outputPath]
  {
    var qs := IntToString(quality);
    RenderedNumberIsPlain(quality);
    var r9 := "-o" + ([Space] + Quoted(outputPath));
    var r7 := qs + ([Space] + r9);
    var r5 := "-q" + ([Space] + r7);
    var r2 := Quoted(filename) + ([Space] + ([Space] + r5));
    assert Command(cwebp, filename, QualityOption(quality), Quoted(outputPath))
        == Quoted(cwebp) + ([Space] + r2);
    QuotedWord(cwebp, r2);
    QuotedWord(filename, [Space] + r5);
    SkipSpace(r5);
    assert Plain("-q") && Plain("-o");
    PlainWord("-q", r7);
    PlainWord(qs, r9);
    PlainWord("-o", Quoted(outputPath));
    LastQuotedWord(outputPath);
  }

  /** What the status label reports after a batch; for one image it keeps the quoted output
      name, from which the message takes the displayed part. */
  datatype Status = NoImages | ConvertedOne(outputName: string) | ConvertedMany(count: nat)

  function StatusMessage(s: Status): string {
    match s
    case NoImages => "선택된 파일에 이미지 파일이 없습니다."
    case ConvertedOne(outputName) => SingleName(outputName) + "으로 변환되었습니다."
    case ConvertedMany(n) => "총 " + IntToString(n) + "개의 파일이 변환되었습니다."
  }

  /** The many-images message gives the count back: two batches of different sizes never
      report the same text. */
  lemma CountMessageInjective(m: nat, n: nat)
    requires StatusMessage(ConvertedMany(m)) == StatusMessage(ConvertedMany(n))
    ensures m == n
  {
    var pre, post := "총 ", "개의 파일이 변환되었습니다.";
    var a, b := IntToString(m), IntToString(n);
    var sa, sb := pre + a + post, pre + b + post;
    assert |a| == |b|;
    assert sa[|pre|..|pre| + |a|] == a;
    assert sb[|pre|..|pre| + |b|] == b;
    IntToStringInjective(m, n);
  }

  /** `os.path.basename(output_filename)[:-1]`: the basename of the quoted path, less its
      closing quote. */
  function SingleName(outputName: string): string {
    var b := Basename(outputName);
    if |b| == 0 then "" else b[..|b| - 1]
  }

  lemma SingleNameOfQuoted(j: string, m: string)
    requires |j| == 0 || j[|j| - 1] == Sep
    requires Sep !in m
    ensures SingleName(Quoted(j + m)) == if j == "" then [Quote] + m else m
  {
    var tail := m + [Quote];
    assert Sep !in tail;
    if j == "" {
      assert Quoted(j + m) == [] + ([Quote] + tail);
      HeadBasenameOfConcat([], [Quote] + tail);
      assert ([Quote] + tail)[..|[Quote] + tail| - 1] == [Quote] + m;
    } else {
      assert Quoted(j + m) == ([Quote] + j) + tail;
      HeadBasenameOfConcat([Quote] + j, tail);
      assert tail[..|tail| - 1] == m;
    }
  }

  /** The name reported for a single converted file is the output file's own name; only when
      the output directory is empty (a source given without any directory) does the opening
      quote stay in front of it. */
  lemma SingleNameShape(directory: string, filename: string)
    ensures SingleName(OutputFileName(directory, filename))
         == if directory == "" then [Quote] + OutputBaseName(filename) else OutputBaseName(filename)
  {
    var m := OutputBaseName(filename);
    OutputFileNameShape(directory, filename);
    JoinRelative(directory, m);
    SingleNameOfQuoted(JoinPrefix(directory), m);
  }

  /** The outcome of one batch: the two lists, the command log, the progress bar and the
      status, and the window state afterwards. */
  datatype Batch = Batch(
    images: seq<string>,
    unsupported: seq<string>,
    commands: seq<string>,
    progressMax: nat,
    progress: nat,
    status: Status,
    app: AppState)

  /** The window's `makeFolder`: the target of each image under the window's current save
      policy, with `makedirs` telling which directories can be created. */
  function WindowFolderMaker(app: AppState, makedirs: string -> bool): string -> Target {
    f => MakeFolder(app.locationType, app.locationPath, f, makedirs)
  }

  /** The name the single-image status message shows under the window's settings: the output
      file's base name, with the command's opening quote left in front when the directory
      chosen is empty. */
  lemma WindowSingleName(app: AppState, makedirs: string -> bool, filename: string)
    ensures var t := WindowFolderMaker(app, makedirs)(filename);
      SingleName(t.outputName) == (if t.directory == "" then [Quote] else []) + OutputBaseName(filename)
  {
    var t := MakeFolder(app.locationType, app.locationPath, filename, makedirs);
    SingleNameShape(t.directory, filename);
  }

  /** The command log of a batch: one command per image, in order, with `makeFolder` giving
      each image's target. */
  function CommandsFor(cwebp: string, option: string, makeFolder: string -> Target, images: seq<string>): seq<string>
    decreases |images|
  {
    if |images| == 0 then []
    else CommandsFor(cwebp, option, makeFolder, images[..|images| - 1])
         + [Command(cwebp, images[|images| - 1], option, makeFolder(images[|images| - 1]).outputName)]
  }

  lemma {:induction false} CommandsForIndex(cwebp: string, option: string, makeFolder: string -> Target, images: seq<string>)
    ensures |CommandsFor(cwebp, option, makeFolder, images)| == |images|
    ensures forall k :: 0 <= k < |images| ==>
      CommandsFor(cwebp, option, makeFolder, images)[k]
        == Command(cwebp, images[k], option, makeFolder(images[k]).outputName)
    decreases |images|
  {
    if |images| > 0 {
      var init := images[..|images| - 1];
      CommandsForIndex(cwebp, option, makeFolder, init);
      forall k | 0 <= k < |images| - 1
        ensures CommandsFor(cwebp, option, makeFolder, images)[k]
             == Command(cwebp, images[k], option, makeFolder(images[k]).outputName)
      {
        assert init[k] == images[k];
      }
    }
  }

  /** The conversion loop of `convert_files`: for each image in order, `makeFolder` (which reads
      the window's settings and creates directories) picks the target, the command is run, and
      the progress bar advances by one; the last image's directory and output name are kept. */
  method RunConversions(cwebp: string, option: string, makeFolder: string -> Target, images: seq<string>)
    returns (commands: seq<string>, progress: nat, lastFolder: string, outputName: string)
    requires |images| > 0
    ensures commands == CommandsFor(cwebp, option, makeFolder, images) && progress == |images|
    ensures lastFolder == makeFolder(images[|images| - 1]).directory
    ensures outputName == makeFolder(images[|images| - 1]).outputName
  {
    commands, progress, lastFolder, outputName := [], 0, "", "";
    for i := 0 to |images|
      invariant progress == i
      invariant commands == CommandsFor(cwebp, option, makeFolder, images[..i])
      invariant i > 0 ==> lastFolder == makeFolder(images[i - 1]).directory
      invariant i > 0 ==> outputName == makeFolder(images[i - 1]).outputName
    {
      var target := makeFolder(images[i]);
      assert images[..i + 1][..i] == images[..i];
      commands := commands + [Command(cwebp, images[i], option, target.outputName)];
      lastFolder := target.directory;
      outputName := target.outputName;
      progress := progress + 1;
    }
    assert images[..|images|] == images;
  }

  /** `convert_files`: partition the input, then run one command per image in input order,
      advancing the progress bar once per image; with no image nothing is run and the warning
      is shown. The last output directory, when non-empty, becomes the folder the save label
      opens. `makeFolder` is the window's own `makeFolder`, which is `WindowFolderMaker` of the
      window's settings and the directory-creation outcome. */
  method ConvertFiles(app: AppState, cwebp: string, makeFolder: string -> Target, filenames: seq<string>)
    returns (b: Batch)
    ensures b.images == Filter(IsImageFile, filenames)
    ensures b.unsupported == Reject(IsImageFile, filenames)
    ensures b.commands == CommandsFor(cwebp, QualityOption(app.quality), makeFolder, b.images)
    ensures |b.commands| == |b.images|
    ensures forall k :: 0 <= k < |b.images| ==>
      b.commands[k] == Command(cwebp, b.images[k], QualityOption(app.quality), makeFolder(b.images[k]).outputName)
    ensures b.progressMax == |b.images| && b.progress == |b.images|
    ensures b.status == NoImages <==> |b.images| == 0
    ensures |b.images| == 1 ==> b.status == ConvertedOne(makeFolder(b.images[0]).outputName)
    ensures |b.images| > 1 ==> b.status == ConvertedMany(|b.images|)
    ensures |b.images| == 0 ==> b.app == app
    ensures |b.images| > 0 ==>
      var last := makeFolder(b.images[|b.images| - 1]).directory;
      b.app == if last != "" then app.(currentSaveFolder := last) else app
  {
    var images, unsupported := PartitionFiles(filenames);
    if |images| == 0 {
      return Batch(images, unsupported, [], 0, 0, NoImages, app);
    }
    b := ConvertImages(app, cwebp, makeFolder, images, unsupported);
  }

  /** The part of `convert_files` after the partition, for a non-empty image list. */
  method ConvertImages(app: AppState, cwebp: string, makeFolder: string -> Target,
                       images: seq<string>, unsupported: seq<string>)
    returns (b: Batch)
    requires |images| > 0
    ensures b.images == images && b.unsupported == unsupported
    ensures b.commands == CommandsFor(cwebp, QualityOption(app.quality), makeFolder, images)
    ensures |b.commands| == |images|
    ensures forall k :: 0 <= k < |images| ==>
      b.commands[k] == Command(cwebp, images[k], QualityOption(app.quality), makeFolder(images[k]).outputName)
    ensures b.progressMax == |images| && b.progress == |images|
    ensures |images| == 1 ==> b.status == ConvertedOne(makeFolder(images[0]).outputName)
    ensures |images| > 1 ==> b.status == ConvertedMany(|images|)
    ensures var last := makeFolder(images[|images| - 1]).directory;
      b.app == if last != "" then app.(currentSaveFolder := last) else app
  {
    var option := QualityOption(app.quality);
    var commands, progress, lastFolder, outputName := RunConversions(cwebp, option, makeFolder, images);
    CommandsForIndex(cwebp, option, makeFolder, images);
    var app' := if lastFolder != "" then app.(currentSaveFolder := lastFolder) else app;
    var status := if |images| == 1 then ConvertedOne(outputName) else ConvertedMany(|images|);
    b := Batch(images, unsupported, commands, |images|, progress, status, app');
  }
}
