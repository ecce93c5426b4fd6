/**
 * The Jamf Pro side of the importer: the configured server, the package
 * being imported, the URLs and request bodies the importer builds, the calls
 * it makes (as an observable trace) and the errors it raises.
 */
module Jamf {
  import opened PyText

  /** HTTP status that means a GET found its resource. */
  const Found: nat := 200
  /** HTTP status that means a PUT was accepted. */
  const Created: nat := 201

  /** Server URL and credentials, read from the importer's preference file. */
  datatype Settings = Settings(server: string, user: string, password: string)

  /** The package being imported: its path, file name and application title. */
  datatype Package = Package(path: string, name: string, title: string)

  /**
   * The package as the processor's constructor derives it from `pkg_path`:
   * the name is the file name, the title the part of the name before its first '-'.
   */
  function NewPackage(path: string): (pkg: Package)
    ensures pkg.path == path
    ensures '/' !in pkg.name && |pkg.name| <= |path| && pkg.name == path[|path| - |pkg.name|..]
    ensures |pkg.name| < |path| ==> path[|path| - |pkg.name| - 1] == '/'
    ensures pkg.title <= pkg.name && '-' !in pkg.title
    ensures pkg.title == pkg.name <==> '-' !in pkg.name
    ensures |pkg.title| < |pkg.name| ==> pkg.name[|pkg.title|] == '-'
  {
    var name := Basename(path);
    PrefixBeforeWhole(name, '-');
    Package(path, name, PrefixBefore(name, '-'))
  }

  /** The root of the classic API. */
  function Base(cfg: Settings): string
  {
    cfg.server + "/JSSResource/"
  }

  /** Lookup of a package by its file name. */
  function LookupUrl(cfg: Settings, name: string): string
  {
    Base(cfg) + "packages/name/" + name
  }

  /** The binary upload endpoint; it sits beside the API root, not under it. */
  function UploadUrl(cfg: Settings): string
  {
    cfg.server + "/dbfileupload"
  }

  /** A package record addressed by its server-assigned id. */
  function PackageUrl(cfg: Settings, id: string): string
  {
    Base(cfg) + "packages/id/" + id
  }

  /** Lookup of the test policy that goes with an application title. */
  function PolicyLookupUrl(cfg: Settings, title: string): string
  {
    Base(cfg) + "policies/name/TEST-" + title
  }

  /** A policy addressed by its own id. */
  function PolicyUrl(cfg: Settings, id: string): string
  {
    Base(cfg) + "policies/id/" + id
  }

  /** The argument vector of the `curl` process that uploads the package file. */
  function CurlCommand(cfg: Settings, name: string, path: string): seq<string>
  {
    CurlPreamble(cfg) + HeaderOptions(name) + ["--upload-file", path]
  }

  /** The credentials, the silent flag and the POST to the upload endpoint. */
  function CurlPreamble(cfg: Settings): seq<string>
  {
    ["curl", "-u", cfg.user + ":" + cfg.password, "-s", "-X", "POST", UploadUrl(cfg)]
  }

  /** The out-of-band headers the upload endpoint needs. */
  function HeaderOptions(name: string): seq<string>
  {
    ["--header", "DESTINATION: 0", "--header", "OBJECT_ID: -1",
     "--header", "FILE_TYPE: 0", "--header", "FILE_NAME: " + name]
  }

  /** The values of the `--header` options in a curl argument vector, in order. */
  function Headers(args: seq<string>): seq<string>
  {
    if |args| < 2 then []
    else if args[0] == "--header" then [args[1]] + Headers(args[2..])
    else Headers(args[1..])
  }

  /** Arguments none of which is "--header" contribute no header. */
  lemma {:induction false} HeadersSkip(a: seq<string>, b: seq<string>)
    requires forall i :: 0 <= i < |a| ==> a[i] != "--header"
    ensures Headers(a + b) == Headers(b)
  {
    if a != [] {
      assert (a + b)[1..] == a[1..] + b;
      HeadersSkip(a[1..], b);
    } else {
      assert a + b == b;
    }
  }

  lemma HeadersPair(v: string, rest: seq<string>)
    ensures Headers(["--header", v] + rest) == [v] + Headers(rest)
  {
    assert (["--header", v] + rest)[2..] == rest;
  }

  lemma NoColonInHeaderFlag(user: string, password: string)
    ensures user + ":" + password != "--header"
  {
    var auth := user + ":" + password;
    assert auth[|user|] == ':';
    if |auth| == 8 {
      assert forall i :: 0 <= i < 8 ==> "--header"[i] != ':';
    }
  }

  lemma UploadUrlIsNotHeaderFlag(cfg: Settings)
    ensures UploadUrl(cfg) != "--header"
  {
    var url := UploadUrl(cfg);
    assert url[|url| - 1] == 'd';
  }

  /**
   * The upload request: a POST to `<server>/dbfileupload`, authenticated with the
   * configured credentials, carrying exactly four headers (destination 0, object
   * id -1, file type 0 and the package's file name) and the package file as body.
   */
  lemma UploadRequest(cfg: Settings, name: string, path: string)
    ensures var cmd := CurlCommand(cfg, name, path);
      && cmd[0] == "curl"
      && cmd[1..3] == ["-u", cfg.user + ":" + cfg.password]
      && cmd[4..7] == ["-X", "POST", UploadUrl(cfg)]
      && Headers(cmd) == ["DESTINATION: 0", "OBJECT_ID: -1", "FILE_TYPE: 0", "FILE_NAME: " + name]
      && cmd[|cmd| - 2..] == ["--upload-file", path]
  {
    var pre := CurlPreamble(cfg);
    NoColonInHeaderFlag(cfg.user, cfg.password);
    UploadUrlIsNotHeaderFlag(cfg);
    var upload := ["--upload-file", path];
    var r4 := ["--header", "FILE_NAME: " + name] + upload;
    var r3 := ["--header", "FILE_TYPE: 0"] + r4;
    var r2 := ["--header", "OBJECT_ID: -1"] + r3;
    var rest := ["--header", "DESTINATION: 0"] + r2;
    assert CurlCommand(cfg, name, path) == pre + rest;
    HeadersSkip(pre, rest);
    assert Headers(upload) == [];
    HeadersPair("FILE_NAME: " + name, upload);
    HeadersPair("FILE_TYPE: 0", r4);
    HeadersPair("OBJECT_ID: -1", r3);
    HeadersPair("DESTINATION: 0", r2);
    assert Headers(CurlCommand(cfg, name, path)) == Headers(rest);
  }

  const MetaHead: string := "<package><id>"
  const MetaMid: string := "</id>" + "<category>Applications</category>" + "<notes>Built by Autopkg. "
  const MetaTail: string := "</notes></package>"

  /**
   * The package-metadata document PUT after the upload: the id, the category
   * "Applications" and a note naming the build tool and the build date
   * (`today` stands for the date already rendered as "(YYYY-MM-DD)").
   */
  function MetadataBody(id: string, today: string): string
  {
    MetaHead + id + MetaMid + today + MetaTail
  }

  /** Reads the id and the date text back out of a package-metadata document. */
  function ParseMetadata(body: string): Option<(string, string)>
  {
    if |body| < |MetaHead| || body[..|MetaHead|] != MetaHead then None
    else
      var rest := body[|MetaHead|..];
      var id := PrefixBefore(rest, '<');
      var tail := rest[|id|..];
      if |tail| < |MetaMid| + |MetaTail| then None
      else if tail[..|MetaMid|] != MetaMid || tail[|tail| - |MetaTail|..] != MetaTail then None
      else Some((id, tail[|MetaMid|..|tail| - |MetaTail|]))
  }

  lemma MetaMidOpensTag()
    ensures MetaMid[0] == '<'
  {
    assert MetaMid[0] == "</id>"[0];
  }

  /**
   * The metadata document carries the package id and the date unaltered: reading
   * it back yields both, provided the id holds no '<' (server ids are numeric).
   */
  lemma MetadataRoundTrip(id: string, today: string)
    requires '<' !in id
    ensures ParseMetadata(MetadataBody(id, today)) == Some((id, today))
  {
    var body := MetadataBody(id, today);
    assert body[..|MetaHead|] == MetaHead;
    var rest := body[|MetaHead|..];
    assert rest == id + (MetaMid + today + MetaTail);
    MetaMidOpensTag();
    assert (MetaMid + today + MetaTail)[0] == MetaMid[0];
    PrefixBeforeConcat(id, '<', MetaMid + today + MetaTail);
    var tail := rest[|id|..];
    assert tail == MetaMid + today + MetaTail;
    assert tail[..|MetaMid|] == MetaMid;
    assert tail[|tail| - |MetaTail|..] == MetaTail;
    assert tail[|MetaMid|..|tail| - |MetaTail|] == today;
  }

  /** Paths of the policy document's fields the importer reads or rewrites. */
  const PkgIdPath: string := "package_configuration/packages/package/id"
  const PkgNamePath: string := "package_configuration/packages/package/name"
  const EnabledPath: string := "general/enabled"
  const GeneralIdPath: string := "general/id"

  /**
   * A policy document as the text of each of its element paths. The importer only
   * navigates by path; everything else in the document is carried along unread.
   */
  type PolicyDoc = map<string, string>

  /** One observable effect of the importer, in the order it happens. */
  datatype Call =
    | GetPackage(url: string)
    | Curl(args: seq<string>)
    | PutPackage(url: string, body: string)
    | Pause(units: nat)
    | GetPolicy(url: string)
    | PutPolicy(url: string, doc: PolicyDoc)

  /** The stage of the workflow a call belongs to; a run's calls never go back a stage. */
  function Stage(c: Call): nat
  {
    match c
    case GetPackage(_) => 0
    case Curl(_) => 1
    case PutPackage(_, _) => 2
    case Pause(_) => 2
    case GetPolicy(_) => 3
    case PutPolicy(_, _) => 4
  }

  ghost predicate InStageOrder(calls: seq<Call>)
  {
    forall i, j :: 0 <= i < j < |calls| ==> Stage(calls[i]) <= Stage(calls[j])
  }

  /** Why a run stops before activating the test policy. */
  datatype Error =
    | PackageNotFound(path: string)
    | CurlFailed(exitCode: int)
    | EmptyUploadId(url: string)
    | PackageUpdateFailed(status: nat)
    | PolicyNotFound(url: string, status: nat)
    | MissingPolicyNode(path: string)
    | PolicyUpdateFailed(url: string, status: nat)
    | MissingAttribute(attr: string)

  /** The text of the exception raised for each error. */
  function Message(e: Error): string
  {
    match e
    case PackageNotFound(p) => "Package not found: " + p
    case CurlFailed(code) =>
      if code < 0 then "died with signal " + Decimal(-code) + "."
      else "returned non-zero exit status " + Decimal(code) + "."
    case EmptyUploadId(url) => "curl failed for url :" + url
    case PackageUpdateFailed(status) => "Package update failed with code: " + Decimal(status)
    case PolicyNotFound(url, status) => "Test Policy " + url + " not found: " + Decimal(status)
    case MissingPolicyNode(_) => "'NoneType' object has no attribute 'text'"
    case PolicyUpdateFailed(url, status) => "Test policy " + url + " update failed: " + Decimal(status)
    case MissingAttribute(attr) => "'JPCImporter' object has no attribute '" + attr + "'"
  }

  lemma LookupMessageNamesCause(url: string, status: nat)
    ensures Contains(Message(PolicyNotFound(url, status)), url)
    ensures Contains(Message(PolicyNotFound(url, status)), Decimal(status))
  {
    ContainsMiddle("Test Policy ", url, " not found: " + Decimal(status));
    ContainsMiddle("Test Policy " + url + " not found: ", Decimal(status), "");
    assert "Test Policy " + url + " not found: " + Decimal(status) + "" == Message(PolicyNotFound(url, status));
    assert "Test Policy " + url + (" not found: " + Decimal(status)) == Message(PolicyNotFound(url, status));
  }

  lemma UpdateMessageNamesCause(url: string, status: nat)
    ensures Contains(Message(PolicyUpdateFailed(url, status)), url)
    ensures Contains(Message(PolicyUpdateFailed(url, status)), Decimal(status))
  {
    ContainsMiddle("Test policy ", url, " update failed: " + Decimal(status));
    ContainsMiddle("Test policy " + url + " update failed: ", Decimal(status), "");
    assert "Test policy " + url + " update failed: " + Decimal(status) + "" == Message(PolicyUpdateFailed(url, status));
    assert "Test policy " + url + (" update failed: " + Decimal(status)) == Message(PolicyUpdateFailed(url, status));
  }

  lemma CurlMessageNamesCode(code: int)
    ensures Contains(Message(CurlFailed(code)), Decimal(if code < 0 then -code else code))
  {
    if code < 0 {
      ContainsMiddle("died with signal ", Decimal(-code), ".");
    } else {
      ContainsMiddle("returned non-zero exit status ", Decimal(code), ".");
    }
  }

  lemma AttributeMessageNamesIt(attr: string)
    ensures Contains(Message(MissingAttribute(attr)), attr)
  {
    ContainsMiddle("'JPCImporter' object has no attribute '", attr, "'");
  }

  /** Every error message names what caused it: the URL and the status, the path, the exit status or the attribute. */
  lemma MessageNamesCause(e: Error)
    ensures e.EmptyUploadId? ==> Contains(Message(e), e.url)
    ensures e.PackageUpdateFailed? ==> Contains(Message(e), Decimal(e.status))
    ensures e.PolicyNotFound? || e.PolicyUpdateFailed? ==>
      Contains(Message(e), e.url) && Contains(Message(e), Decimal(e.status))
    ensures e.PackageNotFound? ==> Contains(Message(e), e.path)
    ensures e.CurlFailed? ==> Contains(Message(e), Decimal(if e.exitCode < 0 then -e.exitCode else e.exitCode))
    ensures e.MissingAttribute? ==> Contains(Message(e), e.attr)
  {
    match e
    case PackageNotFound(p) =>
      ContainsMiddle("Package not found: ", p, "");
      assert "Package not found: " + p + "" == Message(e);
    case CurlFailed(code) =>
      CurlMessageNamesCode(code);
    case EmptyUploadId(url) =>
      ContainsMiddle("curl failed for url :", url, "");
      assert "curl failed for url :" + url + "" == Message(e);
    case PackageUpdateFailed(status) =>
      ContainsMiddle("Package update failed with code: ", Decimal(status), "");
      assert "Package update failed with code: " + Decimal(status) + "" == Message(e);
    case PolicyNotFound(url, status) =>
      LookupMessageNamesCause(url, status);
    case MissingPolicyNode(_) =>
    case PolicyUpdateFailed(url, status) =>
      UpdateMessageNamesCause(url, status);
    case MissingAttribute(attr) =>
      AttributeMessageNamesIt(attr);
  }
}
