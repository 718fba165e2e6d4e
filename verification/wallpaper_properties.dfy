/** Properties of the wallpaper job workflow across calls: the store stays
    valid, a job moves from pending to completed or failed, and only its
    owner reaches it. */
module WallpaperProperties {
  import opened Results
  import opened Models
  import opened AuthUtils
  import opened WallpaperRoutes

  lemma CreateKeepsValid(s: Store, subject: string, prompt: string, size: string, style: string,
                         newId: WallpaperId, now: Instant)
    requires Valid(s)
    requires newId !in s.wallpapers
    ensures var r := CreateWallpaper(s, subject, prompt, size, style, newId, now);
      r.Ok? ==> Valid(r.value.store)
  {
  }

  lemma RecreateKeepsValid(s: Store, subject: string, original: WallpaperId, newId: WallpaperId, now: Instant)
    requires Valid(s)
    requires newId !in s.wallpapers
    ensures var r := RecreateWallpaper(s, subject, original, newId, now);
      r.Ok? ==> Valid(r.value.store)
  {
  }

  lemma GenerationStepKeepsValid(s: Store, task: GenerationTask, provider: ImageRequest -> ProviderOutcome,
                                 writeSucceeds: bool, uuid: string)
    requires Valid(s)
    ensures Valid(GenerationStep(s, task, provider, writeSucceeds, uuid))
  {
  }

  lemma DeleteKeepsValid(s: Store, subject: string, id: WallpaperId)
    requires Valid(s)
    ensures var r := DeleteWallpaper(s, subject, id);
      r.Ok? ==> Valid(r.value.store)
  {
  }

  /** A new job is the caller's, pending, and has nothing to download yet. */
  lemma CreatedJobIsPending(s: Store, subject: string, prompt: string, size: string, style: string,
                            newId: WallpaperId, now: Instant)
    requires Valid(s)
    requires newId !in s.wallpapers
    requires EmailInUse(s.users, subject)
    ensures var r := CreateWallpaper(s, subject, prompt, size, style, newId, now);
      && r.Ok?
      && var s' := r.value.store;
        && newId in Owned(s', UserWithEmail(s.users, subject).value)
        && s'.wallpapers[newId].status == Pending
        && DownloadWallpaper(s', subject, newId) == Err(ImageNotGenerated)
  {
  }

  /** The request the image model receives for a job created with
      `prompt`, `size` and `style`: the prompt with the style's clause, the
      size's dimensions, one output, four steps. */
  function JobRequest(prompt: string, size: string, style: string): ImageRequest {
    var d := DimensionsFor(size);
    ImageRequest(ImageModel, FinalPrompt(prompt, style), d.width, d.height, OutputCount, InferenceSteps)
  }

  /** Create, then a generation step whose image model answers the job's
      own request with a list whose first output reads, and whose write
      succeeds: the job is completed and downloads exactly those bytes under
      the fresh file name. */
  lemma GeneratedImageDownloads(s: Store, subject: string, prompt: string, size: string, style: string,
                                newId: WallpaperId, now: Instant, provider: ImageRequest -> ProviderOutcome,
                                bytes: seq<bv8>, more: seq<FileObject>, uuid: string)
    requires Valid(s)
    requires newId !in s.wallpapers
    requires EmailInUse(s.users, subject)
    requires provider(JobRequest(prompt, size, style)) == Items([Readable(bytes)] + more)
    ensures var c := CreateWallpaper(s, subject, prompt, size, style, newId, now).value;
      var s' := GenerationStep(c.store, c.task, provider, true, uuid);
      && s'.wallpapers[newId].status == Completed
      && DownloadWallpaper(s', subject, newId) == Ok(Download(ImageFileName(uuid), ImageMediaType, bytes))
  {
    var c := CreateWallpaper(s, subject, prompt, size, style, newId, now).value;
    assert RequestFor(c.task) == JobRequest(prompt, size, style);
    var s' := GenerationStep(c.store, c.task, provider, true, uuid);
    assert s'.users == s.users;
    assert ImageFileName(uuid) != "";
  }

  /** Whatever made generation fail — the call raised, the output was not
      a list, the list was empty, the read raised, the write failed — the
      job ends failed and there is still nothing to download. */
  lemma FailedGenerationHasNoImage(s: Store, subject: string, prompt: string, size: string, style: string,
                                   newId: WallpaperId, now: Instant, provider: ImageRequest -> ProviderOutcome,
                                   writeSucceeds: bool, uuid: string)
    requires Valid(s)
    requires newId !in s.wallpapers
    requires EmailInUse(s.users, subject)
    requires DeliveredImage(provider(JobRequest(prompt, size, style)), writeSucceeds).None?
    ensures var c := CreateWallpaper(s, subject, prompt, size, style, newId, now).value;
      var s' := GenerationStep(c.store, c.task, provider, writeSucceeds, uuid);
      && s'.wallpapers[newId].status == Failed
      && s'.wallpapers[newId].imageUrl.None?
      && DownloadWallpaper(s', subject, newId) == Err(ImageNotGenerated)
  {
    var c := CreateWallpaper(s, subject, prompt, size, style, newId, now).value;
    assert RequestFor(c.task) == JobRequest(prompt, size, style);
    var s' := GenerationStep(c.store, c.task, provider, writeSucceeds, uuid);
    assert s'.users == s.users;
  }

  /** A deleted job is gone for its owner, and a generation step that
      finishes after the deletion does not bring it back. */
  lemma DeletedJobStaysDeleted(s: Store, subject: string, id: WallpaperId, task: GenerationTask,
                               provider: ImageRequest -> ProviderOutcome, writeSucceeds: bool, uuid: string)
    requires Valid(s)
    requires DeleteWallpaper(s, subject, id).Ok?
    requires task.wallpaperId == id
    ensures var s' := DeleteWallpaper(s, subject, id).value.store;
      && DownloadWallpaper(s', subject, id) == Err(WallpaperNotFound)
      && GenerationStep(s', task, provider, writeSucceeds, uuid) == s'
  {
  }

  /** A job that belongs to someone else is answered exactly like a job
      that does not exist, on every route that names a job. */
  lemma OthersJobsHidden(s: Store, subject: string, id: WallpaperId, newId: WallpaperId, now: Instant)
    requires Valid(s)
    requires newId !in s.wallpapers
    requires EmailInUse(s.users, subject)
    requires id in s.wallpapers && s.users[s.wallpapers[id].userId].email != subject
    ensures RecreateWallpaper(s, subject, id, newId, now) == Err(WallpaperNotFound)
    ensures DeleteWallpaper(s, subject, id) == Err(WallpaperNotFound)
    ensures DownloadWallpaper(s, subject, id) == Err(WallpaperNotFound)
  {
  }

  /** A recreated job starts over: pending, no image, the original's
      prompt, size and style, and the original is untouched. */
  lemma RecreateCopiesOriginal(s: Store, subject: string, original: WallpaperId, newId: WallpaperId, now: Instant)
    requires Valid(s)
    requires newId !in s.wallpapers
    requires RecreateWallpaper(s, subject, original, newId, now).Ok?
    ensures var s' := RecreateWallpaper(s, subject, original, newId, now).value.store;
      var o, w := s.wallpapers[original], s'.wallpapers[newId];
      && s'.wallpapers[original] == o
      && w.status == Pending && w.imageUrl.None?
      && w.prompt == o.prompt && w.size == o.size && w.style == o.style
      && w.userId == o.userId
  {
  }
}
