/**
 * The video analysis page: choosing a video file (type and size checks,
 * the default name and the delayed automatic upload), the manual upload,
 * the analysis types ticked by the athlete, the prompt allowance of the
 * subscription tier, and starting an analysis.  The uploads and analyses
 * the page sends are returned as requests; the server's answers arrive as
 * calls of the success and failure handlers.
 */
module VideoAnalysis {
  import opened Common

  datatype VideoFile = VideoFile(name: string, mimeType: string, size: nat)

  const AllowedTypes: seq<string> := ["video/mp4", "video/mov", "video/avi", "video/quicktime"]

  /** 100 MB in bytes. */
  const MaxSize: nat := 100 * 1024 * 1024

  datatype FileCheck = InvalidType | TooLarge | Accepted

  /** The checks of `handleFileSelect`: the type first, then the size, which may reach but not pass the limit. */
  function CheckFile(f: VideoFile): (c: FileCheck)
    ensures c == InvalidType <==> f.mimeType !in AllowedTypes
    ensures c == TooLarge <==> f.mimeType in AllowedTypes && f.size > MaxSize
    ensures c == Accepted <==> f.mimeType in AllowedTypes && f.size <= MaxSize
  {
    if f.mimeType !in AllowedTypes then InvalidType
    else if f.size > MaxSize then TooLarge
    else Accepted
  }

  /** A video of exactly 100 MB is accepted; one byte more is refused. */
  lemma SizeLimitInclusive(name: string)
    ensures CheckFile(VideoFile(name, "video/mp4", 104857600)) == Accepted
    ensures CheckFile(VideoFile(name, "video/mp4", 104857601)) == TooLarge
  {
    assert "video/mp4" == AllowedTypes[0];
  }

  /** The last position of `c` in `s`. */
  function LastIndex(s: string, c: char): (i: Option<nat>)
    ensures i.Some? ==> i.value < |s| && s[i.value] == c && forall k :: i.value < k < |s| ==> s[k] != c
    ensures i.None? ==> c !in s
    decreases |s|
  {
    if s == [] then None
    else if s[|s| - 1] == c then Some(|s| - 1)
    else
      var r := LastIndex(s[..|s| - 1], c);
      assert forall k :: 0 <= k < |s| - 1 ==> s[..|s| - 1][k] == s[k];
      r
  }

  /** A match of `/\.[^/.]+$/` at position `p`: a dot followed by one or more characters, none a dot or a slash, to the end. */
  predicate ExtensionAt(s: string, p: int)
  {
    0 <= p < |s| - 1 && s[p] == '.' && forall k :: p < k < |s| ==> s[k] != '.' && s[k] != '/'
  }

  /**
   * `name.replace(/\.[^/.]+$/, "")`: the final extension is cut off when
   * there is one; otherwise the name is kept whole.
   */
  function StripExtension(name: string): (r: string)
    ensures (exists p :: ExtensionAt(name, p)) ==> ExtensionAt(name, |r|) && r == name[..|r|]
    ensures !(exists p :: ExtensionAt(name, p)) ==> r == name
  {
    var d := LastIndex(name, '.');
    if d.Some? && d.value < |name| - 1 && forall k :: d.value < k < |name| ==> name[k] != '/' then
      assert ExtensionAt(name, d.value);
      name[..d.value]
    else
      forall p | 0 <= p < |name|
        ensures !ExtensionAt(name, p)
      {
        if d.Some? && p < d.value {
          assert name[d.value] == '.';
        }
      }
      name
  }

  /** The extension is found at one place only, so the name's cut is determined. */
  lemma ExtensionUnique(s: string, p: int, q: int)
    requires ExtensionAt(s, p) && ExtensionAt(s, q)
    ensures p == q
  {
    assert s[p] == '.' && s[q] == '.';
  }

  /** Only the last extension is removed, and a dot inside a folder name is not an extension. */
  lemma StripExamples()
    ensures StripExtension("clip.mp4") == "clip"
    ensures StripExtension("a.b.mov") == "a.b"
    ensures StripExtension("run.") == "run."
    ensures StripExtension("v.2/run") == "v.2/run"
  {
    assert ExtensionAt("clip.mp4", 4);
    assert ExtensionAt("a.b.mov", 3);
    assert "run."[3] == '.';
    assert "v.2/run"[3] == '/';
  }

  /** A request the page sends to the server. */
  datatype Request = UploadRequest(file: VideoFile, name: string, description: string)
                   | AnalyzeRequest(videoId: int, promptId: string)

  /** The upload the half-second timer sends: only when the default name is not blank. */
  function AutoUpload(f: VideoFile): (r: Option<Request>)
    ensures r.Some? <==> Trim(StripExtension(f.name)) != ""
    ensures r.Some? ==> r.value == UploadRequest(f, StripExtension(f.name), "")
  {
    if Trim(StripExtension(f.name)) != "" then Some(UploadRequest(f, StripExtension(f.name), "")) else None
  }

  /** A file named only by its extension, such as '.mp4', gets a blank name and is not uploaded automatically. */
  lemma HiddenFileNotAutoUploaded(mimeType: string, size: nat)
    ensures AutoUpload(VideoFile(".mp4", mimeType, size)).None?
  {
    assert ExtensionAt(".mp4", 0);
  }

  /** Unticking and reticking moves the type to the end, so the first ticked type can change. */
  lemma UntickThenTickReorders()
    ensures Toggle(Toggle(["a", "b"], "a"), "a") == ["b", "a"]
  {
    assert "a" in ["a", "b"];
    assert Remove(["a", "b"], "a") == ["b"] by {
      assert ["a", "b"][1..] == ["b"];
      assert Remove(["b"], "a") == ["b"] + Remove([], "a");
    }
  }

  /** A prompt allowance: a number of prompts, or no limit. */
  datatype Allowance = Count(n: nat) | Unlimited

  datatype PromptLimits = PromptLimits(total: Allowance, remaining: Allowance)

  /**
   * `getPromptLimits` for the signed-in user's subscription tier (`None` when
   * nobody is signed in; a missing tier is the empty string, read as free):
   * star is unlimited, pro has 5, every other tier 1; nothing is counted
   * as used, so the remaining prompts are always the total.
   */
  function Limits(user: Option<string>): (l: PromptLimits)
    ensures l.remaining == l.total
    ensures user.None? ==> l.total == Count(0)
    ensures user == Some("star") ==> l.total == Unlimited
    ensures user == Some("pro") ==> l.total == Count(5)
    ensures user.Some? && user.value != "star" && user.value != "pro" ==> l.total == Count(1)
  {
    if user.None? then PromptLimits(Count(0), Count(0))
    else
      var tier := if user.value == "" then "free" else user.value;
      var total := if tier == "star" then Unlimited else if tier == "pro" then Count(5) else Count(1);
      PromptLimits(total, total)
  }

  /** Since no usage is counted, the allowance is used up exactly when nobody is signed in. */
  lemma LimitReachedIffSignedOut(user: Option<string>)
    ensures Limits(user).remaining == Count(0) <==> user.None?
  {
  }

  /** `!selectedVideoId`: no video, or the id 0. */
  predicate HasVideo(id: Option<int>)
  {
    id.Some? && id.value != 0
  }

  datatype AnalyzeOutcome = NoVideo | LimitReached(total: Allowance) | Start(request: Request)

  /** `handleAnalyze`'s decision: a video is needed, then an allowance left; otherwise the analysis is requested. */
  function DecideAnalyze(videoId: Option<int>, user: Option<string>, promptId: string): (o: AnalyzeOutcome)
    ensures o == NoVideo <==> !HasVideo(videoId)
    ensures o.LimitReached? <==> HasVideo(videoId) && Limits(user).remaining == Count(0)
    ensures o.LimitReached? ==> o.total == Limits(user).total
    ensures o.Start? <==> HasVideo(videoId) && Limits(user).remaining != Count(0)
    ensures o.Start? ==> o.request == AnalyzeRequest(videoId.value, promptId)
  {
    if !HasVideo(videoId) then NoVideo
    else if Limits(user).remaining == Count(0) then LimitReached(Limits(user).total)
    else Start(AnalyzeRequest(videoId.value, promptId))
  }

  /** With a video, a signed-in athlete of any tier can always start an analysis. */
  lemma SignedInCanAnalyze(videoId: Option<int>, tier: string, promptId: string)
    requires HasVideo(videoId)
    ensures DecideAnalyze(videoId, Some(tier), promptId).Start?
  {
  }

  /** `handleRunSelectedAnalyses`'s choice: the custom prompt when on and not blank, else the first ticked type. */
  function RunChoice(useCustomPrompt: bool, customPrompt: string, selected: seq<string>): (r: Option<string>)
    ensures useCustomPrompt && Trim(customPrompt) != "" ==> r == Some("custom")
    ensures !(useCustomPrompt && Trim(customPrompt) != "") ==> (r.None? <==> selected == [])
    ensures !(useCustomPrompt && Trim(customPrompt) != "") && selected != [] ==> r == Some(selected[0])
  {
    if useCustomPrompt && Trim(customPrompt) != "" then Some("custom")
    else if |selected| > 0 then Some(selected[0])
    else None
  }

  datatype SubmitOutcome = NoFile | MissingName | Upload(request: Request)

  /** `handleSubmit`: a file is needed, then a name that is not blank; the name is sent as typed. */
  function DecideSubmit(file: Option<VideoFile>, name: string, description: string): (o: SubmitOutcome)
    ensures o == NoFile <==> file.None?
    ensures o == MissingName <==> file.Some? && Trim(name) == ""
    ensures o.Upload? <==> file.Some? && Trim(name) != ""
    ensures o.Upload? ==> o.request == UploadRequest(file.value, name, description)
  {
    if file.None? then NoFile
    else if Trim(name) == "" then MissingName
    else Upload(UploadRequest(file.value, name, description))
  }

  datatype Step = UploadStep | VideoStep | ResultsStep

  class AnalysisPage {
    var user: Option<string>
    var selectedFile: Option<VideoFile>
    var videoName: string
    var videoDescription: string
    var currentStep: Step
    var selectedVideoId: Option<int>
    var selectedPrompts: seq<string>
    var useCustomPrompt: bool
    var customPrompt: string
    var isAnalyzing: bool
    var analysisResponse: string

    /** The ticked analysis types have no repetitions. */
    predicate Valid()
      reads this
    {
      NoDup(selectedPrompts)
    }

    /** A fresh page for the signed-in user's tier, on the upload step with nothing chosen. */
    constructor (user: Option<string>)
      ensures Valid()
      ensures this.user == user && selectedFile.None? && videoName == "" && videoDescription == ""
      ensures currentStep == UploadStep && selectedVideoId.None? && selectedPrompts == []
      ensures !useCustomPrompt && customPrompt == "" && !isAnalyzing && analysisResponse == ""
    {
      this.user := user;
      selectedFile, videoName, videoDescription := None, "", "";
      currentStep, selectedVideoId, selectedPrompts := UploadStep, None, [];
      useCustomPrompt, customPrompt, isAnalyzing, analysisResponse := false, "", false, "";
    }

    /** `handlePromptToggle`. */
    method TogglePrompt(id: string)
      requires Valid()
      modifies this`selectedPrompts
      ensures Valid()
      ensures selectedPrompts == Toggle(old(selectedPrompts), id)
    {
      ToggleKeepsNoDup(selectedPrompts, id);
      if id in selectedPrompts {
        selectedPrompts := Remove(selectedPrompts, id);
      } else {
        selectedPrompts := selectedPrompts + [id];
      }
    }

    /**
     * `handleFileSelect`: a refused file changes nothing; an accepted one is
     * kept with its name minus the extension, and the automatic upload is
     * scheduled.
     */
    method SelectFile(f: VideoFile) returns (check: FileCheck, scheduled: Option<Request>)
      modifies this`selectedFile, this`videoName
      ensures check == CheckFile(f)
      ensures check != Accepted ==> scheduled.None? && selectedFile == old(selectedFile) && videoName == old(videoName)
      ensures check == Accepted ==> selectedFile == Some(f) && videoName == StripExtension(f.name) && scheduled == AutoUpload(f)
    {
      check := CheckFile(f);
      if check != Accepted {
        scheduled := None;
        return;
      }
      selectedFile := Some(f);
      videoName := StripExtension(f.name);
      scheduled := AutoUpload(f);
    }

    /** `handleSubmit`: changes nothing on the page itself. */
    method Submit() returns (o: SubmitOutcome)
      ensures o == DecideSubmit(selectedFile, videoName, videoDescription)
    {
      o := DecideSubmit(selectedFile, videoName, videoDescription);
    }

    /** The upload's success: the new video is selected and the page moves to the video step. */
    method UploadSucceeded(id: int)
      modifies this`selectedVideoId, this`currentStep
      ensures selectedVideoId == Some(id) && currentStep == VideoStep
    {
      selectedVideoId := Some(id);
      currentStep := VideoStep;
    }

    /** `handleAnalyze`: on a start the page shows the analysis running with an empty response. */
    method Analyze(promptId: string) returns (o: AnalyzeOutcome)
      modifies this`isAnalyzing, this`analysisResponse
      ensures o == DecideAnalyze(selectedVideoId, user, promptId)
      ensures o.Start? ==> isAnalyzing && analysisResponse == ""
      ensures !o.Start? ==> isAnalyzing == old(isAnalyzing) && analysisResponse == old(analysisResponse)
    {
      o := DecideAnalyze(selectedVideoId, user, promptId);
      if o.Start? {
        isAnalyzing := true;
        analysisResponse := "";
      }
    }

    /** `handleRunSelectedAnalyses`: nothing happens unless a prompt is chosen. */
    method RunSelectedAnalyses() returns (o: Option<AnalyzeOutcome>)
      modifies this`isAnalyzing, this`analysisResponse
      ensures o.None? <==> RunChoice(useCustomPrompt, customPrompt, selectedPrompts).None?
      ensures o.Some? ==> o.value == DecideAnalyze(selectedVideoId, user, RunChoice(useCustomPrompt, customPrompt, selectedPrompts).value)
      ensures o.Some? && o.value.Start? ==> isAnalyzing && analysisResponse == ""
      ensures !(o.Some? && o.value.Start?) ==> isAnalyzing == old(isAnalyzing) && analysisResponse == old(analysisResponse)
    {
      var choice := RunChoice(useCustomPrompt, customPrompt, selectedPrompts);
      if choice.None? {
        return None;
      }
      var a := Analyze(choice.value);
      o := Some(a);
    }

    /** The analysis's success: its text is shown on the results step. */
    method AnalysisSucceeded(text: string)
      modifies this`isAnalyzing, this`analysisResponse, this`currentStep
      ensures !isAnalyzing && analysisResponse == text && currentStep == ResultsStep
    {
      isAnalyzing, analysisResponse, currentStep := false, text, ResultsStep;
    }

    /** The analysis's failure: the page stops showing it as running. */
    method AnalysisFailed()
      modifies this`isAnalyzing
      ensures !isAnalyzing
    {
      isAnalyzing := false;
    }

    /** `resetForm`: back to the upload step with nothing chosen; the running flag and the user are kept. */
    method ResetForm()
      modifies this
      ensures Valid()
      ensures user == old(user) && isAnalyzing == old(isAnalyzing)
      ensures selectedFile.None? && videoName == "" && videoDescription == ""
      ensures currentStep == UploadStep && selectedVideoId.None? && selectedPrompts == []
      ensures !useCustomPrompt && customPrompt == "" && analysisResponse == ""
    {
      selectedFile, videoName, videoDescription := None, "", "";
      currentStep, selectedVideoId, selectedPrompts := UploadStep, None, [];
      useCustomPrompt, customPrompt, analysisResponse := false, "", "";
    }
  }

  /** After a reset no analysis can start until a new video is uploaded. */
  method ResetThenAnalyze(p: AnalysisPage, promptId: string) returns (o: AnalyzeOutcome)
    modifies p
    ensures o == NoVideo
  {
    p.ResetForm();
    o := p.Analyze(promptId);
  }
}
