/** The wallpaper job routes: the size and style tables, the background
    generation step, and create / recreate / list / delete / download, each
    scoped to the caller named by the access token. */
module WallpaperRoutes {
  import opened Results
  import opened Models
  import opened AuthUtils

  const WallpaperNotFound := HttpError(404, "Wallpaper not found")
  const ImageNotGenerated := HttpError(400, "Wallpaper image not generated yet")
  const ImageFileMissing := HttpError(404, "Image file not found on server")
  const DeletedMessage := "Wallpaper deleted successfully"

  /** The directory, relative to the site root, that serves the images. */
  const WallpaperPath := "static/wallpapers/"
  const ImageExtension := ".webp"
  const ImageMediaType := "image/webp"

  /** The image model and the fixed generation parameters it is called with
      (the guidance scale, a float, is not modelled). */
  const ImageModel := "black-forest-labs/flux-schnell"
  const OutputCount := 1
  const InferenceSteps := 4

  datatype Dimensions = Dimensions(width: nat, height: nat)

  const Square := Dimensions(1024, 1024)
  const Portrait := Dimensions(832, 1216)
  const Landscape := Dimensions(1216, 832)

  const SizeTable: map<string, Dimensions> := map[
    "1:1" := Square,
    "2:3 Portrait" := Portrait,
    "2:3 Landscape" := Landscape]

  /** A clause appended to a prompt: a comma, a blank, then descriptors. */
  function Clause(descriptors: string): (r: string)
    ensures |r| == |descriptors| + 2 && r[0] == ',' && r[1] == ' ' && r[2..] == descriptors
  {
    ", " + descriptors
  }

  /** The nineteen style names the table knows. */
  const KnownStyles: set<string> := {
    "Colorful", "3D Render", "3D Cinematic", "Photorealistic", "Illustration", "Oil Painting",
    "Watercolor", "Cyberpunk", "Fantasy", "Anime", "Manga", "Cartoon", "Cartoon (Vector)",
    "Disney/Pixar", "Chibi", "Kawaii", "Cel-Shading", "Comic Strip", "Steampunk"}

  /** The style table: the descriptors added to the prompt for each of the
      nineteen known styles. */
  function StyleDescriptors(style: string): (r: Option<string>)
    ensures r.Some? <==> style in KnownStyles
  {
    match style
    case "Colorful" => Some("vibrant colors, highly detailed, 8k quality")
    case "3D Render" => Some("CGI, 3D render, octane lighting, product-shot quality")
    case "3D Cinematic" => Some("cinematic lighting, volumetric fog, ray tracing, movie-quality")
    case "Photorealistic" => Some("ultra photorealistic, professional photography, sharp details, natural lighting")
    case "Illustration" => Some("digital illustration, concept art style, clean linework")
    case "Oil Painting" => Some("oil painting style, textured brushstrokes, fine art look")
    case "Watercolor" => Some("watercolor painting style, soft edges, artistic wash textures")
    case "Cyberpunk" => Some("neon lights, futuristic glow, dystopian atmosphere, high contrast")
    case "Fantasy" => Some("magical atmosphere, epic fantasy style, mystical lighting")
    case "Anime" => Some("anime style, expressive eyes, cel-shaded, vibrant colors")
    case "Manga" => Some("manga style, dramatic composition, black-and-white inked lines")
    case "Cartoon" => Some("cartoon style, bold outlines, smooth shading, playful character design")
    case "Cartoon (Vector)" => Some("vector cartoon style, bold outlines, flat colors, Disney-like aesthetic")
    case "Disney/Pixar" => Some("Pixar-style 3D animation, soft lighting, family-friendly character design")
    case "Chibi" => Some("chibi style, cute small characters, oversized expressive eyes")
    case "Kawaii" => Some("kawaii style, super cute, pastel colors, soft rounded shapes")
    case "Cel-Shading" => Some("cel-shaded animation style, bold shadows, clean color blocks")
    case "Comic Strip" => Some("comic strip style, halftone shading, bold ink lines, retro comic look")
    case "Steampunk" => Some("Victorian industrial style, brass textures, gears, retro-futuristic")
    case _ => None
  }

  /** The suffix for a style: its descriptors as a clause, or nothing for
      an unknown style. */
  function StyleSuffix(style: string): (r: Option<string>)
    ensures r.Some? <==> StyleDescriptors(style).Some?
    ensures r.Some? ==> |r.value| >= 2 && r.value[0] == ',' && r.value[1] == ' ' && r.value[2..] == StyleDescriptors(style).value
  {
    match StyleDescriptors(style)
    case Some(d) => Some(Clause(d))
    case None => None
  }

  /** The image size for a size label; an unknown label gets the square. */
  function DimensionsFor(size: string): (d: Dimensions)
    ensures d == Square || d == Portrait || d == Landscape
    ensures d == Portrait <==> size == "2:3 Portrait"
    ensures d == Landscape <==> size == "2:3 Landscape"
  {
    if size in SizeTable then SizeTable[size] else Square
  }

  /** The prompt sent to the model: the user's prompt followed by the
      style's suffix, or the prompt alone for an unknown style. */
  function FinalPrompt(prompt: string, style: string): (r: string)
    ensures |r| >= |prompt| && r[..|prompt|] == prompt
    ensures StyleSuffix(style).None? ==> r == prompt
    ensures StyleSuffix(style).Some? ==> r[|prompt|..] == StyleSuffix(style).value
    ensures StyleSuffix(style).Some? ==> |r| >= |prompt| + 2 && r[|prompt|] == ',' && r[|prompt| + 1] == ' '
  {
    var suffix := if StyleSuffix(style).Some? then StyleSuffix(style).value else "";
    prompt + suffix
  }

  /** The arguments the background task is scheduled with. */
  datatype GenerationTask = GenerationTask(wallpaperId: WallpaperId, prompt: string, size: string, style: string)

  /** What the generation step asks the image model for. */
  datatype ImageRequest = ImageRequest(model: string, prompt: string, width: nat, height: nat, outputs: nat, steps: nat)

  function RequestFor(task: GenerationTask): (q: ImageRequest)
    ensures q.model == ImageModel && q.outputs == OutputCount && q.steps == InferenceSteps
    ensures Dimensions(q.width, q.height) == DimensionsFor(task.size)
    ensures q.prompt == FinalPrompt(task.prompt, task.style)
  {
    var d := DimensionsFor(task.size);
    ImageRequest(ImageModel, FinalPrompt(task.prompt, task.style), d.width, d.height, OutputCount, InferenceSteps)
  }

  /** One element of the model's output: reading it yields bytes or raises. */
  datatype FileObject = Readable(bytes: seq<bv8>) | ReadRaises

  /** What the call to the image model did: it raised, returned something
      that is not a list (or nothing at all), or returned a list. */
  datatype ProviderOutcome = Raised | NotAList | Items(items: seq<FileObject>)

  /** The image the step stores, when everything on the way succeeds: the
      output is a non-empty list, its first element reads, and the file
      write completes. */
  function DeliveredImage(outcome: ProviderOutcome, writeSucceeds: bool): (r: Option<seq<bv8>>)
    ensures r.Some? <==> outcome.Items? && |outcome.items| > 0 && outcome.items[0].Readable? && writeSucceeds
    ensures r.Some? ==> r.value == outcome.items[0].bytes
  {
    if outcome.Items? && |outcome.items| > 0 && outcome.items[0].Readable? && writeSucceeds
    then Some(outcome.items[0].bytes) else None
  }

  /** The stored image's name: a fresh UUID with the WebP extension. */
  function ImageFileName(uuid: string): (name: string)
    ensures |name| == |uuid| + |ImageExtension| && name[..|uuid|] == uuid && name[|uuid|..] == ImageExtension
  {
    uuid + ImageExtension
  }

  /** The background generation step for one job.  A job that no longer
      exists is left alone and the image model is not asked.  Otherwise the
      image model, `provider`, is asked for the job's request, and the job
      ends completed with the new file as its image, or failed with its
      image reference untouched; whatever happens, no other record
      changes. */
  function GenerationStep(s: Store, task: GenerationTask, provider: ImageRequest -> ProviderOutcome,
                          writeSucceeds: bool, uuid: string): (r: Store)
    ensures task.wallpaperId !in s.wallpapers ==> r == s
    ensures task.wallpaperId in s.wallpapers ==>
      var id, w := task.wallpaperId, s.wallpapers[task.wallpaperId];
      var image := DeliveredImage(provider(RequestFor(task)), writeSucceeds);
      && r.users == s.users && r.refreshTokens == s.refreshTokens
      && r.wallpapers.Keys == s.wallpapers.Keys
      && (forall other :: other in s.wallpapers && other != id ==> r.wallpapers[other] == s.wallpapers[other])
      && r.wallpapers[id].status != Pending
      && (r.wallpapers[id].status == Completed <==> image.Some?)
      && (image.Some? ==>
        && r.wallpapers[id] == w.(status := Completed, imageUrl := Some(ImageFileName(uuid)))
        && r.files == s.files[ImageFileName(uuid) := image.value])
      && (image.None? ==> r.wallpapers[id] == w.(status := Failed) && r.files == s.files)
  {
    if task.wallpaperId !in s.wallpapers then s
    else
      var id := task.wallpaperId;
      var w := s.wallpapers[id];
      match DeliveredImage(provider(RequestFor(task)), writeSucceeds)
      case Some(bytes) =>
        var name := ImageFileName(uuid);
        s.(wallpapers := s.wallpapers[id := w.(status := Completed, imageUrl := Some(name))],
           files := s.files[name := bytes])
      case None =>
        s.(wallpapers := s.wallpapers[id := w.(status := Failed)])
  }

  /** The caller's id, from the access token's subject. */
  function Caller(s: Store, subject: string): (r: Result<UserId>)
    requires EmailsUnique(s.users)
    ensures r.Ok? <==> EmailInUse(s.users, subject)
    ensures r.Err? ==> r.error == UserNotFound
    ensures r.Ok? ==> r.value in s.users && s.users[r.value].email == subject
  {
    match UserWithEmail(s.users, subject)
    case None => Err(UserNotFound)
    case Some(id) => Ok(id)
  }

  /** Job `id` exists and belongs to user `owner`. */
  predicate OwnedBy(s: Store, id: WallpaperId, owner: UserId) {
    id in s.wallpapers && s.wallpapers[id].userId == owner
  }

  /** A job just stored and the task scheduled to generate it. */
  datatype Created = Created(store: Store, id: WallpaperId, task: GenerationTask)

  /** `POST /wallpapers/`: stores a pending job for the caller and schedules
      its generation with the request's prompt, size and style. */
  function CreateWallpaper(s: Store, subject: string, prompt: string, size: string, style: string,
                           newId: WallpaperId, now: Instant): (r: Result<Created>)
    requires EmailsUnique(s.users)
    requires newId !in s.wallpapers
    ensures r.Ok? <==> EmailInUse(s.users, subject)
    ensures r.Err? ==> r.error == UserNotFound
    ensures r.Ok? ==>
      var c := r.value;
      && c.id == newId
      && c.store.users == s.users && c.store.refreshTokens == s.refreshTokens && c.store.files == s.files
      && c.store.wallpapers.Keys == s.wallpapers.Keys + {newId}
      && (forall w :: w in s.wallpapers ==> c.store.wallpapers[w] == s.wallpapers[w])
      && c.store.wallpapers[newId].userId in s.users
      && s.users[c.store.wallpapers[newId].userId].email == subject
      && c.store.wallpapers[newId] == NewWallpaper(c.store.wallpapers[newId].userId, prompt, size, style, now)
      && c.task == GenerationTask(newId, prompt, size, style)
  {
    match Caller(s, subject)
    case Err(e) => Err(e)
    case Ok(owner) =>
      var job := NewWallpaper(owner, prompt, size, style, now);
      Ok(Created(s.(wallpapers := s.wallpapers[newId := job]), newId, GenerationTask(newId, prompt, size, style)))
  }

  /** `POST /wallpapers/{id}/recreate`: a new pending job with the prompt,
      size and style of one of the caller's jobs.  The original is kept as
      it is. */
  function RecreateWallpaper(s: Store, subject: string, original: WallpaperId, newId: WallpaperId, now: Instant): (r: Result<Created>)
    requires EmailsUnique(s.users)
    requires newId !in s.wallpapers
    ensures !EmailInUse(s.users, subject) ==> r == Err(UserNotFound)
    ensures EmailInUse(s.users, subject) ==>
      var owner := UserWithEmail(s.users, subject).value;
      && (r.Ok? <==> OwnedBy(s, original, owner))
      && (r.Err? ==> r.error == WallpaperNotFound)
      && (r.Ok? ==>
        var c, o := r.value, s.wallpapers[original];
        && c.id == newId
        && c.store.users == s.users && c.store.refreshTokens == s.refreshTokens && c.store.files == s.files
        && c.store.wallpapers.Keys == s.wallpapers.Keys + {newId}
        && (forall w :: w in s.wallpapers ==> c.store.wallpapers[w] == s.wallpapers[w])
        && c.store.wallpapers[newId] == NewWallpaper(owner, o.prompt, o.size, o.style, now)
        && c.task == GenerationTask(newId, o.prompt, o.size, o.style))
  {
    match Caller(s, subject)
    case Err(e) => Err(e)
    case Ok(owner) =>
      if !OwnedBy(s, original, owner) then Err(WallpaperNotFound)
      else
        var o := s.wallpapers[original];
        var job := NewWallpaper(owner, o.prompt, o.size, o.style, now);
        Ok(Created(s.(wallpapers := s.wallpapers[newId := job]), newId, GenerationTask(newId, o.prompt, o.size, o.style)))
  }

  /** The jobs of user `owner`. */
  function Owned(s: Store, owner: UserId): (r: set<WallpaperId>)
    ensures forall id :: id in r <==> OwnedBy(s, id, owner)
  {
    set id | id in s.wallpapers && s.wallpapers[id].userId == owner
  }

  predicate Distinct<T(==)>(xs: seq<T>) {
    forall i, j :: 0 <= i < j < |xs| ==> xs[i] != xs[j]
  }

  predicate AllIn(ids: seq<WallpaperId>, jobs: map<WallpaperId, Wallpaper>) {
    forall i :: 0 <= i < |ids| ==> ids[i] in jobs
  }

  /** Creation times never increase along the list. */
  predicate NewestFirst(ids: seq<WallpaperId>, jobs: map<WallpaperId, Wallpaper>)
    requires AllIn(ids, jobs)
  {
    forall i, j :: 0 <= i < j < |ids| ==> jobs[ids[i]].createdAt >= jobs[ids[j]].createdAt
  }

  /** Puts `w` into a list in front of the first job that is not newer
      than it. */
  function InsertNewestFirst(ids: seq<WallpaperId>, w: WallpaperId, jobs: map<WallpaperId, Wallpaper>): (r: seq<WallpaperId>)
    requires AllIn(ids, jobs) && w in jobs
    ensures |r| == |ids| + 1
    ensures forall x :: x in r <==> x in ids || x == w
    ensures AllIn(r, jobs)
  {
    if |ids| == 0 || jobs[w].createdAt >= jobs[ids[0]].createdAt then
      [w] + ids
    else
      var rest := InsertNewestFirst(ids[1..], w, jobs);
      assert forall x :: x in ids <==> x == ids[0] || x in ids[1..];
      [ids[0]] + rest
  }

  /** Inserting into a newest-first list keeps it newest first. */
  lemma {:induction false} InsertKeepsNewestFirst(ids: seq<WallpaperId>, w: WallpaperId, jobs: map<WallpaperId, Wallpaper>)
    requires AllIn(ids, jobs) && w in jobs
    requires NewestFirst(ids, jobs)
    ensures NewestFirst(InsertNewestFirst(ids, w, jobs), jobs)
  {
    if !(|ids| == 0 || jobs[w].createdAt >= jobs[ids[0]].createdAt) {
      var rest := InsertNewestFirst(ids[1..], w, jobs);
      InsertKeepsNewestFirst(ids[1..], w, jobs);
      assert forall k :: 0 <= k < |rest| ==> rest[k] in ids[1..] || rest[k] == w;
      assert forall k :: 0 <= k < |rest| ==> jobs[ids[0]].createdAt >= jobs[rest[k]].createdAt;
      assert InsertNewestFirst(ids, w, jobs) == [ids[0]] + rest;
    }
  }

  /** Inserting a job not yet in a repeat-free list keeps it repeat-free. */
  lemma {:induction false} InsertKeepsDistinct(ids: seq<WallpaperId>, w: WallpaperId, jobs: map<WallpaperId, Wallpaper>)
    requires AllIn(ids, jobs) && w in jobs
    requires Distinct(ids) && w !in ids
    ensures Distinct(InsertNewestFirst(ids, w, jobs))
  {
    if !(|ids| == 0 || jobs[w].createdAt >= jobs[ids[0]].createdAt) {
      var rest := InsertNewestFirst(ids[1..], w, jobs);
      InsertKeepsDistinct(ids[1..], w, jobs);
      assert ids[0] !in rest;
      assert InsertNewestFirst(ids, w, jobs) == [ids[0]] + rest;
    }
  }

  /** One job as the list reports it: the record and, when it has an image,
      the image's full address. */
  datatype ListEntry = ListEntry(id: WallpaperId, job: Wallpaper, fullImageUrl: Option<string>)

  /** The full address of an image: set only for a non-empty image name. */
  function FullImageUrl(baseUrl: string, imageUrl: Option<string>): (r: Option<string>)
    ensures r.Some? <==> imageUrl.Some? && imageUrl.value != ""
    ensures r.Some? ==> r.value == baseUrl + WallpaperPath + imageUrl.value
  {
    if imageUrl.Some? && imageUrl.value != "" then Some(baseUrl + WallpaperPath + imageUrl.value) else None
  }

  /** `GET /wallpapers/`: exactly the caller's jobs, each once, newest
      first. */
  method ListWallpapers(s: Store, subject: string, baseUrl: string) returns (r: Result<seq<ListEntry>>)
    requires EmailsUnique(s.users)
    ensures r.Ok? <==> EmailInUse(s.users, subject)
    ensures r.Err? ==> r.error == UserNotFound
    ensures r.Ok? ==>
      var owner, es := UserWithEmail(s.users, subject).value, r.value;
      && |es| == |Owned(s, owner)|
      && (forall id :: OwnedBy(s, id, owner) <==> exists i :: 0 <= i < |es| && es[i].id == id)
      && (forall i, j :: 0 <= i < j < |es| ==> es[i].id != es[j].id)
      && (forall i :: 0 <= i < |es| ==> es[i].id in s.wallpapers && es[i].job == s.wallpapers[es[i].id])
      && (forall i, j :: 0 <= i < j < |es| ==> es[i].job.createdAt >= es[j].job.createdAt)
      && (forall i :: 0 <= i < |es| ==> es[i].fullImageUrl == FullImageUrl(baseUrl, es[i].job.imageUrl))
  {
    var caller := Caller(s, subject);
    if caller.Err? {
      return Err(caller.error);
    }
    var owner := caller.value;
    var owned := Owned(s, owner);
    var ids: seq<WallpaperId> := [];
    var rest := owned;
    while rest != {}
      invariant rest <= owned
      invariant AllIn(ids, s.wallpapers)
      invariant NewestFirst(ids, s.wallpapers)
      invariant Distinct(ids)
      invariant forall x :: x in owned <==> x in rest || x in ids
      invariant forall x :: x in ids ==> x !in rest
      invariant |ids| + |rest| == |owned|
      decreases |rest|
    {
      var w :| w in rest;
      InsertKeepsNewestFirst(ids, w, s.wallpapers);
      InsertKeepsDistinct(ids, w, s.wallpapers);
      ids := InsertNewestFirst(ids, w, s.wallpapers);
      rest := rest - {w};
    }
    var es := seq(|ids|, i requires 0 <= i < |ids| && AllIn(ids, s.wallpapers) =>
      ListEntry(ids[i], s.wallpapers[ids[i]], FullImageUrl(baseUrl, s.wallpapers[ids[i]].imageUrl)));
    assert forall id :: OwnedBy(s, id, owner) ==> id in ids;
    forall id | id in ids
      ensures exists i :: 0 <= i < |es| && es[i].id == id
    {
      var i :| 0 <= i < |ids| && ids[i] == id;
      assert es[i].id == id;
    }
    return Ok(es);
  }

  /** The record of a deleted job, as the reply echoes it. */
  datatype DeletedInfo = DeletedInfo(id: WallpaperId, prompt: string, size: string, style: string, createdAt: Instant)

  datatype Deleted = Deleted(store: Store, message: string, info: DeletedInfo)

  /** The image file a job refers to, when its reference is set. */
  function ImageName(w: Wallpaper): (r: Option<string>)
    ensures r.Some? <==> w.imageUrl.Some? && w.imageUrl.value != ""
    ensures r.Some? ==> r.value == w.imageUrl.value
  {
    if w.imageUrl.Some? && w.imageUrl.value != "" then w.imageUrl else None
  }

  /** `DELETE /wallpapers/{id}`: removes one of the caller's jobs and its
      image file when it has one.  A reference to a file that is already
      gone does not stop the deletion. */
  function DeleteWallpaper(s: Store, subject: string, id: WallpaperId): (r: Result<Deleted>)
    requires EmailsUnique(s.users)
    ensures !EmailInUse(s.users, subject) ==> r == Err(UserNotFound)
    ensures EmailInUse(s.users, subject) ==>
      var owner := UserWithEmail(s.users, subject).value;
      && (r.Ok? <==> OwnedBy(s, id, owner))
      && (r.Err? ==> r.error == WallpaperNotFound)
      && (r.Ok? ==>
        var d, w := r.value, s.wallpapers[id];
        && d.message == DeletedMessage
        && d.info == DeletedInfo(id, w.prompt, w.size, w.style, w.createdAt)
        && d.store.users == s.users && d.store.refreshTokens == s.refreshTokens
        && d.store.wallpapers == s.wallpapers - {id}
        && (ImageName(w).None? ==> d.store.files == s.files)
        && (ImageName(w).Some? ==> d.store.files == s.files - {ImageName(w).value}))
  {
    match Caller(s, subject)
    case Err(e) => Err(e)
    case Ok(owner) =>
      if !OwnedBy(s, id, owner) then Err(WallpaperNotFound)
      else
        var w := s.wallpapers[id];
        var files := match ImageName(w) case Some(name) => s.files - {name} case None => s.files;
        Ok(Deleted(s.(wallpapers := s.wallpapers - {id}, files := files), DeletedMessage,
                   DeletedInfo(id, w.prompt, w.size, w.style, w.createdAt)))
  }

  /** A file response: name, media type and contents. */
  datatype Download = Download(filename: string, mediaType: string, bytes: seq<bv8>)

  /** `GET /wallpapers/{id}/download`: the checks in their order — the
      caller, the job and its owner, the image reference, the file. */
  function DownloadWallpaper(s: Store, subject: string, id: WallpaperId): (r: Result<Download>)
    requires EmailsUnique(s.users)
    ensures !EmailInUse(s.users, subject) ==> r == Err(UserNotFound)
    ensures EmailInUse(s.users, subject) ==>
      var owner := UserWithEmail(s.users, subject).value;
      && (!OwnedBy(s, id, owner) ==> r == Err(WallpaperNotFound))
      && (OwnedBy(s, id, owner) ==>
        var w := s.wallpapers[id];
        && (ImageName(w).None? ==> r == Err(ImageNotGenerated))
        && (ImageName(w).Some? && ImageName(w).value !in s.files ==> r == Err(ImageFileMissing))
        && (ImageName(w).Some? && ImageName(w).value in s.files ==>
          r == Ok(Download(ImageName(w).value, ImageMediaType, s.files[ImageName(w).value]))))
  {
    match Caller(s, subject)
    case Err(e) => Err(e)
    case Ok(owner) =>
      if !OwnedBy(s, id, owner) then Err(WallpaperNotFound)
      else
        match ImageName(s.wallpapers[id])
        case None => Err(ImageNotGenerated)
        case Some(name) =>
          if name !in s.files then Err(ImageFileMissing)
          else Ok(Download(name, ImageMediaType, s.files[name]))
  }
}
