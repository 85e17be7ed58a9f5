/** The client script that calls the service and stores the returned
    images (save_poster.py). The HTTP call is a parameter; directory
    creation, file writes and printing are left out, so the files the
    script would write are its result. */
module SavePoster {
  import opened Results
  import opened Text
  import opened Schemas
  import Base64
  import opened PosterGenerator

  const ApiUrl: string := "http://127.0.0.1:8000"

  /** The `ValueError` of unpacking a split that found no comma. */
  const NotEnoughValues: string := "not enough values to unpack (expected 2, got 1)"

  const UnknownFormat: string := "Unknown response format"

  const OutputsDir: string := "outputs"

  /** A file the script writes: its path and its bytes. */
  datatype Saved = Saved(path: string, bytes: seq<Base64.Byte>)

  /** The position of the first `c` in `s`, if any. */
  function FirstIndex(s: string, c: char): (r: Option<nat>)
    ensures r.None? <==> c !in s
    ensures r.Some? ==> r.value < |s| && s[r.value] == c && c !in s[..r.value]
    decreases |s|
  {
    if |s| == 0 then None
    else if s[0] == c then Some(0)
    else
      assert s == [s[0]] + s[1..];
      match FirstIndex(s[1..], c)
      case None => None
      case Some(i) =>
        assert s[..i + 1] == [s[0]] + s[1..][..i];
        Some(i + 1)
  }

  /** `save_data_url`: `header, b64 = data_url.split(",", 1)` followed by
      `base64.b64decode(b64)`; the header is not inspected. */
  function SaveDataUrl(dataUrl: string, outPath: string): (r: Result<Saved, string>)
    ensures ',' !in dataUrl ==> r == Failure(NotEnoughValues)
    ensures r.Success? ==> r.value.path == outPath
  {
    match FirstIndex(dataUrl, ',')
    case None => Failure(NotEnoughValues)
    case Some(i) =>
      var bytes :- Base64.Decode(dataUrl[i + 1..]);
      Success(Saved(outPath, bytes))
  }

  /** Only the text after the first comma is decoded, whatever the header
      says. */
  lemma DecodesAfterFirstComma(header: string, body: string, outPath: string)
    requires ',' !in header
    ensures var r := SaveDataUrl(header + [','] + body, outPath);
      && (r.Success? <==> Base64.Decode(body).Success?)
      && (r.Success? ==> r.value == Saved(outPath, Base64.Decode(body).value))
      && (r.Failure? ==> r.error == Base64.Decode(body).error)
  {
    var s := header + [','] + body;
    FirstIndexAfter(header, ',', body);
    assert s[|header| + 1..] == body;
  }

  /** The first `c` of `a + [c] + b` is the one after `a` when `a` has
      none. */
  lemma {:induction false} FirstIndexAfter(a: string, c: char, b: string)
    requires c !in a
    ensures FirstIndex(a + [c] + b, c) == Some(|a|)
    decreases |a|
  {
    if |a| > 0 {
      assert (a + [c] + b)[1..] == a[1..] + [c] + b;
      FirstIndexAfter(a[1..], c, b);
    }
  }

  lemma HeaderHasNoComma()
    ensures ',' !in DataUrlHeader
  {
    assert DataUrlHeader == "data:" + "image/" + "png;" + "base64";
  }

  /** Saving the data URL the service builds from a PNG writes that PNG. */
  lemma DataUrlRoundTrip(png: seq<Base64.Byte>, outPath: string)
    ensures SaveDataUrl(DataUrl(png), outPath) == Success(Saved(outPath, png))
  {
    HeaderHasNoComma();
    assert DataUrl(png) == DataUrlHeader + [','] + Base64.Encode(png);
    DecodesAfterFirstComma(DataUrlHeader, Base64.Encode(png), outPath);
    Base64.RoundTrip(png);
  }

  /** `s.replace(" ", "_")`: only the space character is replaced. */
  function ReplaceSpaces(s: string): (r: string)
    ensures |r| == |s| && ' ' !in r
    ensures forall i :: 0 <= i < |s| && s[i] != ' ' ==> r[i] == s[i]
    ensures forall i :: 0 <= i < |s| && s[i] == ' ' ==> r[i] == '_'
  {
    seq(|s|, i requires 0 <= i < |s| => if s[i] == ' ' then '_' else s[i])
  }

  /** A string without spaces is left as it is, so replacing twice is
      replacing once. */
  lemma ReplaceSpacesIdempotent(s: string)
    ensures ReplaceSpaces(s) == s <==> ' ' !in s
    ensures ReplaceSpaces(ReplaceSpaces(s)) == ReplaceSpaces(s)
  {
    var r := ReplaceSpaces(s);
    if ' ' !in s {
      assert forall i | 0 <= i < |s| :: r[i] == s[i];
    }
    assert forall i | 0 <= i < |r| :: ReplaceSpaces(r)[i] == r[i];
  }

  /** One entry of the `variants` list of a response, as a JSON object
      whose keys may be absent. */
  datatype VariantEntry = VariantEntry(id: Option<int>, variant: Option<string>, imageUrl: Option<string>)

  /** A decoded response body: the keys the script looks at. */
  datatype ApiResponse = ApiResponse(variants: Option<seq<VariantEntry>>, imageUrl: Option<string>)

  /** `v.get("id", 0)`. */
  function EntryId(v: VariantEntry): (id: int)
    ensures v.id.Some? ==> id == v.id.value
    ensures v.id.None? ==> id == 0
  {
    if v.id.Some? then v.id.value else 0
  }

  /** `(v.get("variant") or f"variant_{v.get('id', 'x')}").replace(" ", "_")`. */
  function EntryName(v: VariantEntry): (name: string)
    ensures ' ' !in name
    ensures Truthy(v.variant) ==> name == ReplaceSpaces(v.variant.value)
    ensures !Truthy(v.variant) ==> name == ReplaceSpaces("variant_" + (if v.id.Some? then IntToString(v.id.value) else "x"))
  {
    var raw := if Truthy(v.variant) then v.variant.value
      else "variant_" + (if v.id.Some? then IntToString(v.id.value) else "x");
    ReplaceSpaces(raw)
  }

  /** `f"{vid}_{variant_name}.png"`. */
  function FileName(v: VariantEntry): string {
    IntToString(EntryId(v)) + "_" + EntryName(v) + ".png"
  }

  /** The file name starts with the id and an underscore, ends with
      `.png`, and has no spaces. */
  lemma FileNameShape(v: VariantEntry)
    ensures StartsWith(FileName(v), IntToString(EntryId(v)) + "_")
    ensures EndsWith(FileName(v), ".png")
    ensures ' ' !in FileName(v)
  {
    var f := FileName(v);
    var digits := IntToString(EntryId(v));
    IntToStringChars(EntryId(v));
    assert f == (digits + "_") + EntryName(v) + ".png";
    assert f[..|digits| + 1] == digits + "_";
    assert forall i | 0 <= i < |f| :: f[i] != ' ' by {
      forall i | 0 <= i < |f| ensures f[i] != ' ' {
        if i < |digits| {
          assert f[i] == digits[i];
        } else if i > |digits| && i < |digits| + 1 + |EntryName(v)| {
          assert f[i] == EntryName(v)[i - |digits| - 1];
        }
      }
    }
  }

  /** The id is what precedes the first underscore of the file name. */
  lemma FileNameId(v: VariantEntry)
    ensures FirstIndex(FileName(v), '_') == Some(|IntToString(EntryId(v))|)
    ensures FileName(v)[..|IntToString(EntryId(v))|] == IntToString(EntryId(v))
  {
    var digits := IntToString(EntryId(v));
    IntToStringChars(EntryId(v));
    assert FileName(v) == digits + ['_'] + (EntryName(v) + ".png");
    FirstIndexAfter(digits, '_', EntryName(v) + ".png");
  }

  /** Entries with different ids never share a file, so a campaign, whose
      ids are distinct, never overwrites one of its own images. */
  lemma DistinctIdsDistinctFiles(v: VariantEntry, w: VariantEntry)
    requires EntryId(v) != EntryId(w)
    ensures FileName(v) != FileName(w)
  {
    FileNameId(v);
    FileNameId(w);
    if FileName(v) == FileName(w) {
      IntToStringInjective(EntryId(v), EntryId(w));
    }
  }

  /** `os.path.join(a, b)` on POSIX: an absolute `b` replaces `a`, and a
      separator is added unless `a` is empty or already ends with one. */
  function PathJoin(a: string, b: string): string {
    if |b| > 0 && b[0] == '/' then b
    else if |a| == 0 || a[|a| - 1] == '/' then a + b
    else a + "/" + b
  }

  /** The joined path ends with `b`, and is `b` alone when `b` is absolute. */
  lemma PathJoinEnds(a: string, b: string)
    ensures EndsWith(PathJoin(a, b), b)
    ensures |b| > 0 && b[0] == '/' ==> PathJoin(a, b) == b
  {
  }

  lemma PathJoinRelative(a: string, b: string)
    requires |a| > 0 && a[|a| - 1] != '/'
    requires |b| == 0 || b[0] != '/'
    ensures PathJoin(a, b) == a + "/" + b
  {
  }

  /** A pending write: where to, and the data URL to decode into it. */
  datatype Write = Write(path: string, dataUrl: string)

  /** The writes a campaign response asks for, in list order: one per
      entry with a non-empty image reference, into `outDir`. */
  function Planned(outDir: string, vs: seq<VariantEntry>): (plan: seq<Write>)
    ensures |plan| <= |vs|
    decreases |vs|
  {
    if |vs| == 0 then [] else Planned(outDir, vs[..|vs| - 1]) + PlanOf(outDir, vs[|vs| - 1])
  }

  /** The write for one entry: none when its image reference is missing or
      empty. */
  function PlanOf(outDir: string, v: VariantEntry): (w: seq<Write>)
    ensures |w| <= 1 && (|w| == 1 <==> Truthy(v.imageUrl))
    ensures |w| == 1 ==> w[0].dataUrl == v.imageUrl.value
  {
    if Truthy(v.imageUrl) then [Write(PathJoin(outDir, FileName(v)), v.imageUrl.value)] else []
  }

  /** An entry without an image is skipped and the entries after it are
      still planned: the plan of a concatenation is the concatenation of
      the plans. */
  lemma {:induction false} PlannedAppend(outDir: string, a: seq<VariantEntry>, b: seq<VariantEntry>)
    ensures Planned(outDir, a + b) == Planned(outDir, a) + Planned(outDir, b)
    decreases |b|
  {
    if |b| > 0 {
      assert (a + b)[..|a + b| - 1] == a + b[..|b| - 1];
      PlannedAppend(outDir, a, b[..|b| - 1]);
    } else {
      assert a + b == a;
    }
  }

  /** The plan has one write per entry with an image, in order. */
  lemma {:induction false} PlannedEntries(outDir: string, vs: seq<VariantEntry>)
    requires forall k :: 0 <= k < |vs| ==> Truthy(vs[k].imageUrl)
    ensures |Planned(outDir, vs)| == |vs|
    ensures forall k :: 0 <= k < |vs| ==> Planned(outDir, vs)[k] == PlanOf(outDir, vs[k])[0]
    decreases |vs|
  {
    if |vs| > 0 {
      var front := vs[..|vs| - 1];
      PlannedEntries(outDir, front);
      var p := Planned(outDir, front);
      assert Planned(outDir, vs) == p + PlanOf(outDir, vs[|vs| - 1]);
      forall k | 0 <= k < |vs|
        ensures Planned(outDir, vs)[k] == PlanOf(outDir, vs[k])[0]
      {
        if k < |vs| - 1 {
          assert vs[k] == front[k];
        }
      }
    }
  }

  /** The plan of a prefix of the entries is a prefix of the plan. */
  lemma PlanPrefix(outDir: string, vs: seq<VariantEntry>, m: nat)
    requires m <= |vs|
    ensures var front := Planned(outDir, vs[..m]);
      |front| <= |Planned(outDir, vs)| && Planned(outDir, vs)[..|front|] == front
  {
    assert vs[..m] + vs[m..] == vs;
    PlannedAppend(outDir, vs[..m], vs[m..]);
  }

  /** Every write of `plan` was made and succeeded, giving `saved`. */
  predicate Performed(plan: seq<Write>, saved: seq<Saved>) {
    |saved| == |plan| &&
    forall k :: 0 <= k < |plan| ==> SaveDataUrl(plan[k].dataUrl, plan[k].path) == Success(saved[k])
  }

  /** The writes of `plan` were made in order until the first failure:
      with no error all of them succeeded; otherwise the ones before the
      failing one succeeded and nothing after it was tried. */
  predicate Ran(plan: seq<Write>, saved: seq<Saved>, error: Option<string>) {
    if error.None? then Performed(plan, saved)
    else
      && |saved| < |plan|
      && Performed(plan[..|saved|], saved)
      && SaveDataUrl(plan[|saved|].dataUrl, plan[|saved|].path) == Failure(error.value)
  }

  /** A run ends without an error exactly when every planned write
      decodes. */
  lemma RanWithoutErrorIff(plan: seq<Write>, saved: seq<Saved>, error: Option<string>)
    requires Ran(plan, saved, error)
    ensures error.None? <==> forall k :: 0 <= k < |plan| ==> SaveDataUrl(plan[k].dataUrl, plan[k].path).Success?
  {
    if error.Some? {
      assert !SaveDataUrl(plan[|saved|].dataUrl, plan[|saved|].path).Success?;
    }
  }

  /** The loop over `variants`: skip entries without an image, save the
      others in order, and stop at the first decoding error, keeping what
      was already written. */
  method SaveVariants(outDir: string, vs: seq<VariantEntry>) returns (saved: seq<Saved>, error: Option<string>)
    ensures Ran(Planned(outDir, vs), saved, error)
  {
    saved := [];
    for k := 0 to |vs|
      invariant Performed(Planned(outDir, vs[..k]), saved)
    {
      var v := vs[k];
      PlannedStep(outDir, vs, k);
      if Truthy(v.imageUrl) {
        var w := Write(PathJoin(outDir, FileName(v)), v.imageUrl.value);
        var r := SaveDataUrl(w.dataUrl, w.path);
        if r.Failure? {
          StopsAt(outDir, vs, k, saved, r.error);
          return saved, Some(r.error);
        }
        PerformedSnoc(Planned(outDir, vs[..k]), saved, w, r.value);
        saved := saved + [r.value];
      }
    }
    assert vs[..|vs|] == vs;
    error := None;
  }

  /** One more entry adds its own write, if any, to the plan. */
  lemma PlannedStep(outDir: string, vs: seq<VariantEntry>, k: nat)
    requires k < |vs|
    ensures Planned(outDir, vs[..k + 1]) == Planned(outDir, vs[..k]) + PlanOf(outDir, vs[k])
  {
    assert vs[..k + 1][..k] == vs[..k];
  }

  lemma PerformedSnoc(plan: seq<Write>, saved: seq<Saved>, w: Write, f: Saved)
    requires Performed(plan, saved)
    requires SaveDataUrl(w.dataUrl, w.path) == Success(f)
    ensures Performed(plan + [w], saved + [f])
  {
  }

  /** A failure on entry `k` ends the run of the whole list there. */
  lemma StopsAt(outDir: string, vs: seq<VariantEntry>, k: nat, saved: seq<Saved>, error: string)
    requires k < |vs| && Truthy(vs[k].imageUrl)
    requires Performed(Planned(outDir, vs[..k]), saved)
    requires SaveDataUrl(vs[k].imageUrl.value, PathJoin(outDir, FileName(vs[k]))) == Failure(error)
    ensures Ran(Planned(outDir, vs), saved, Some(error))
  {
    PlanSplit(outDir, vs, k);
    RanStops(Planned(outDir, vs), Planned(outDir, vs[..k]), saved, error);
  }

  /** The plan of the entries before `k` is followed, in the whole plan, by
      the write of entry `k`. */
  lemma PlanSplit(outDir: string, vs: seq<VariantEntry>, k: nat)
    requires k < |vs| && Truthy(vs[k].imageUrl)
    ensures var full, front := Planned(outDir, vs), Planned(outDir, vs[..k]);
      |front| < |full| && full[..|front|] == front &&
      full[|front|] == Write(PathJoin(outDir, FileName(vs[k])), vs[k].imageUrl.value)
  {
    PlannedStep(outDir, vs, k);
    PlanPrefix(outDir, vs, k + 1);
    var full := Planned(outDir, vs);
    var front := Planned(outDir, vs[..k]);
    var w := Write(PathJoin(outDir, FileName(vs[k])), vs[k].imageUrl.value);
    var p := front + [w];
    assert Planned(outDir, vs[..k + 1]) == p;
    assert full[..|p|] == p;
    assert p[..|front|] == front;
    assert full[..|front|] == full[..|p|][..|front|];
    assert full[|front|] == p[|front|] == w;
  }

  /** Writes that succeeded up to a failing one make a run with that
      failure. */
  lemma RanStops(full: seq<Write>, front: seq<Write>, saved: seq<Saved>, error: string)
    requires |front| < |full| && full[..|front|] == front
    requires Performed(front, saved)
    requires SaveDataUrl(full[|front|].dataUrl, full[|front|].path) == Failure(error)
    ensures Ran(full, saved, Some(error))
  {
  }

  /** `endpoint.lstrip('/')`. */
  function LStripSlashes(s: string): (r: string)
    ensures |r| <= |s| && r == s[|s| - |r|..]
    ensures forall i :: 0 <= i < |s| - |r| ==> s[i] == '/'
    ensures |r| > 0 ==> r[0] != '/'
    decreases |s|
  {
    if |s| > 0 && s[0] == '/' then LStripSlashes(s[1..]) else s
  }

  /** `f"{API_URL}/{endpoint.lstrip('/')}"`: the service address, one
      slash, and the endpoint without its leading slashes. */
  function EndpointUrl(endpoint: string): (url: string)
    ensures StartsWith(url, ApiUrl + "/")
    ensures var rest := url[|ApiUrl| + 1..];
      EndsWith(endpoint, rest) && (|rest| > 0 ==> rest[0] != '/') &&
      forall i :: 0 <= i < |endpoint| - |rest| ==> endpoint[i] == '/'
  {
    var rest := LStripSlashes(endpoint);
    assert (ApiUrl + "/" + rest)[|ApiUrl| + 1..] == rest;
    ApiUrl + "/" + rest
  }

  /** A leading slash on the endpoint makes no difference. */
  lemma EndpointIgnoresLeadingSlash(endpoint: string)
    ensures EndpointUrl("/" + endpoint) == EndpointUrl(endpoint)
  {
    assert ("/" + endpoint)[1..] == endpoint;
  }

  /** What a response asks the script to write: with a `variants` key, the
      campaign's images under `outputs/<prefix>/`, whatever else the
      response holds; otherwise with an `image_url` key the single poster
      as `outputs/<prefix>.png`; otherwise nothing, and the run fails. */
  function Plan(prefix: string, data: ApiResponse): (r: Result<seq<Write>, string>)
    ensures r.Failure? <==> data.variants.None? && data.imageUrl.None?
    ensures r.Failure? ==> r.error == UnknownFormat
  {
    if data.variants.Some? then Success(Planned(PathJoin(OutputsDir, prefix), data.variants.value))
    else if data.imageUrl.Some? then Success([Write(PathJoin(OutputsDir, prefix + ".png"), data.imageUrl.value)])
    else Failure(UnknownFormat)
  }

  /** `variants` wins over `image_url`, and an empty list plans nothing. */
  lemma VariantsTakePriority(prefix: string, vs: seq<VariantEntry>, u: Option<string>)
    ensures Plan(prefix, ApiResponse(Some(vs), u)) == Plan(prefix, ApiResponse(Some(vs), None))
    ensures Plan(prefix, ApiResponse(Some([]), u)) == Success([])
  {
  }

  /** A single poster goes to `outputs/<prefix>.png`. */
  lemma SinglePosterPath(prefix: string, u: string)
    requires |prefix| == 0 || prefix[0] != '/'
    ensures Plan(prefix, ApiResponse(None, Some(u))) == Success([Write(OutputsDir + "/" + prefix + ".png", u)])
  {
    var name := prefix + ".png";
    assert name[0] != '/' by {
      if |prefix| == 0 { assert name == ".png"; } else { assert name[0] == prefix[0]; }
    }
    assert OutputsDir[|OutputsDir| - 1] == 's';
    PathJoinRelative(OutputsDir, name);
    assert OutputsDir + "/" + name == OutputsDir + "/" + prefix + ".png";
  }

  /** `generate_and_save`: post to the endpoint, then write what the
      response asks for. `post` is the HTTP exchange, with a non-success
      status as its failure. */
  method GenerateAndSave(endpoint: string, prefix: string, post: string -> Result<ApiResponse, string>)
    returns (url: string, saved: seq<Saved>, error: Option<string>)
    ensures url == EndpointUrl(endpoint)
    ensures post(url).Failure? ==> saved == [] && error == Some(post(url).error)
    ensures post(url).Success? && Plan(prefix, post(url).value).Failure? ==>
      saved == [] && error == Some(UnknownFormat)
    ensures post(url).Success? && Plan(prefix, post(url).value).Success? ==>
      Ran(Plan(prefix, post(url).value).value, saved, error)
  {
    url := EndpointUrl(endpoint);
    var data;
    match post(url)
    case Failure(e) =>
      return url, [], Some(e);
    case Success(d) =>
      data := d;
    if data.variants.Some? {
      var vs := data.variants.value;
      if |vs| == 0 {
        assert Plan(prefix, data).value == [];
        return url, [], None;
      }
      saved, error := SaveVariants(PathJoin(OutputsDir, prefix), vs);
    } else if data.imageUrl.Some? {
      var w := Write(PathJoin(OutputsDir, prefix + ".png"), data.imageUrl.value);
      assert Plan(prefix, data).value == [w];
      match SaveDataUrl(w.dataUrl, w.path)
      case Failure(e) =>
        saved, error := [], Some(e);
        RanStops([w], [], [], e);
      case Success(f) =>
        saved, error := [f], None;
        PerformedSnoc([], [], w, f);
        assert [] + [w] == [w] && [] + [f] == [f];
    } else {
      saved, error := [], Some(UnknownFormat);
    }
  }

  /** A campaign response as the script reads it: every poster becomes an
      entry with all three keys, and there is no top-level `image_url`. */
  function CampaignBody(c: CampaignResponse): (data: ApiResponse)
    ensures data.variants.Some? && data.imageUrl.None?
    ensures |data.variants.value| == |c.variants|
    ensures forall k :: 0 <= k < |c.variants| ==> data.variants.value[k] == EntryOf(c.variants[k])
  {
    ApiResponse(Some(seq(|c.variants|, k requires 0 <= k < |c.variants| => EntryOf(c.variants[k]))), None)
  }

  function EntryOf(v: PosterVariant): VariantEntry {
    VariantEntry(Some(v.id), Some(v.variant), Some(v.imageUrl))
  }

  /** A single-poster response as the script reads it. */
  function PosterBody(p: PosterResponse): (data: ApiResponse)
    ensures data.variants.None? && data.imageUrl == Some(p.imageUrl)
  {
    ApiResponse(None, Some(p.imageUrl))
  }

  /** Saving a campaign whose images are inline PNGs writes every PNG, in
      order, each to the file named after its poster. */
  lemma CampaignImagesSaved(prefix: string, c: CampaignResponse, pngs: seq<seq<Base64.Byte>>,
                            saved: seq<Saved>, error: Option<string>)
    requires |pngs| == |c.variants|
    requires forall k :: 0 <= k < |c.variants| ==> c.variants[k].imageUrl == DataUrl(pngs[k])
    requires Ran(Plan(prefix, CampaignBody(c)).value, saved, error)
    ensures error.None? && |saved| == |c.variants|
    ensures forall k :: 0 <= k < |c.variants| ==>
      saved[k] == Saved(PathJoin(PathJoin(OutputsDir, prefix), FileName(EntryOf(c.variants[k]))), pngs[k])
  {
    var dir := PathJoin(OutputsDir, prefix);
    var vs := CampaignBody(c).variants.value;
    var plan := Planned(dir, vs);
    forall k | 0 <= k < |vs|
      ensures Truthy(vs[k].imageUrl)
    {
      assert StartsWith(DataUrl(pngs[k]), DataUrlPrefix);
    }
    PlannedEntries(dir, vs);
    forall k | 0 <= k < |plan|
      ensures SaveDataUrl(plan[k].dataUrl, plan[k].path) == Success(Saved(plan[k].path, pngs[k]))
    {
      DataUrlRoundTrip(pngs[k], plan[k].path);
    }
    RanWithoutErrorIff(plan, saved, error);
  }

  /** Saving a single poster whose image is an inline PNG writes that PNG
      to `outputs/<prefix>.png`. */
  lemma PosterImageSaved(prefix: string, p: PosterResponse, png: seq<Base64.Byte>, saved: seq<Saved>, error: Option<string>)
    requires p.imageUrl == DataUrl(png)
    requires Ran(Plan(prefix, PosterBody(p)).value, saved, error)
    ensures error.None? && saved == [Saved(PathJoin(OutputsDir, prefix + ".png"), png)]
  {
    DataUrlRoundTrip(png, PathJoin(OutputsDir, prefix + ".png"));
    RanWithoutErrorIff(Plan(prefix, PosterBody(p)).value, saved, error);
  }

  /** Joining onto the same directory keeps relative names apart. */
  lemma PathJoinInjective(a: string, b1: string, b2: string)
    requires |b1| > 0 && b1[0] != '/' && |b2| > 0 && b2[0] != '/'
    requires PathJoin(a, b1) == PathJoin(a, b2)
    ensures b1 == b2
  {
    var d := if |a| == 0 || a[|a| - 1] == '/' then a else a + "/";
    assert PathJoin(a, b1) == d + b1 && PathJoin(a, b2) == d + b2;
    assert b1 == PathJoin(a, b1)[|d|..];
  }

  /** The files of a campaign numbered 0..n-1 are pairwise distinct: no
      poster overwrites another. */
  lemma CampaignFilesDistinct(prefix: string, c: CampaignResponse, i: nat, j: nat)
    requires i < j < |c.variants|
    requires forall k :: 0 <= k < |c.variants| ==> c.variants[k].id == k
    ensures PathJoin(PathJoin(OutputsDir, prefix), FileName(EntryOf(c.variants[i]))) !=
            PathJoin(PathJoin(OutputsDir, prefix), FileName(EntryOf(c.variants[j])))
  {
    var v, w := EntryOf(c.variants[i]), EntryOf(c.variants[j]);
    DistinctIdsDistinctFiles(v, w);
    FileNameShape(v);
    FileNameShape(w);
    assert FileName(v)[0] == IntToString(EntryId(v))[0];
    assert FileName(w)[0] == IntToString(EntryId(w))[0];
    if PathJoin(PathJoin(OutputsDir, prefix), FileName(v)) == PathJoin(PathJoin(OutputsDir, prefix), FileName(w)) {
      PathJoinInjective(PathJoin(OutputsDir, prefix), FileName(v), FileName(w));
    }
  }
}
