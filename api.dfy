/**
 * The pure helpers of the analysis endpoint (api.py): the upload-filename
 * sanitiser, the public URL of a stored upload and the recommendation rule.
 */
module Api {
  import opened Wrappers

  /** The characters the sanitiser keeps: the class [a-zA-Z0-9_.-]. */
  predicate IsSafeChar(c: char)
    ensures IsSafeChar(c) ==> c != '/' && c != '\\'
  {
    ('a' <= c <= 'z') || ('A' <= c <= 'Z') || ('0' <= c <= '9') || c == '_' || c == '.' || c == '-'
  }

  /**
   * re.sub(r'[^a-zA-Z0-9_.-]', '_', filename): every character outside the
   * safe class becomes '_', every safe character stays where it is.
   */
  function SanitizeFilename(filename: string): (safe: string)
    ensures |safe| == |filename|
    ensures forall i :: 0 <= i < |filename| && IsSafeChar(filename[i]) ==> safe[i] == filename[i]
    ensures forall i :: 0 <= i < |filename| && !IsSafeChar(filename[i]) ==> safe[i] == '_'
    ensures forall i :: 0 <= i < |safe| ==> IsSafeChar(safe[i])
  {
    if filename == [] then []
    else
      var c := filename[0];
      [if IsSafeChar(c) then c else '_'] + SanitizeFilename(filename[1..])
  }

  /** A name made only of safe characters is left unchanged. */
  lemma {:induction false} SanitizeKeepsSafeNames(filename: string)
    requires forall i :: 0 <= i < |filename| ==> IsSafeChar(filename[i])
    ensures SanitizeFilename(filename) == filename
  {
    if filename != [] {
      SanitizeKeepsSafeNames(filename[1..]);
    }
  }

  /** Sanitising twice is sanitising once. */
  lemma SanitizeIdempotent(filename: string)
    ensures SanitizeFilename(SanitizeFilename(filename)) == SanitizeFilename(filename)
  {
    SanitizeKeepsSafeNames(SanitizeFilename(filename));
  }

  /** No path separator survives sanitising. */
  lemma SanitizedHasNoSeparator(filename: string)
    ensures '/' !in SanitizeFilename(filename) && '\\' !in SanitizeFilename(filename)
  {
    var safe := SanitizeFilename(filename);
    assert !IsSafeChar('/') && !IsSafeChar('\\');
  }

  /** The URL prefix under which stored uploads are served. */
  const UploadsUrl: string := "http://127.0.0.1:8000/uploads/"

  /**
   * The public URL of an upload: the fixed prefix followed by the sanitised
   * name, in which no path separator is left.
   */
  function FileUrl(filename: string): (url: string)
    ensures |url| == |UploadsUrl| + |filename|
    ensures url[..|UploadsUrl|] == UploadsUrl
    ensures url[|UploadsUrl|..] == SanitizeFilename(filename)
    ensures forall i :: |UploadsUrl| <= i < |url| ==> url[i] != '/' && url[i] != '\\'
  {
    var safe := SanitizeFilename(filename);
    assert !IsSafeChar('/') && !IsSafeChar('\\');
    UploadsUrl + safe
  }

  /** Two uploads get the same URL exactly when their names sanitise alike. */
  lemma FileUrlInjective(a: string, b: string)
    ensures FileUrl(a) == FileUrl(b) <==> SanitizeFilename(a) == SanitizeFilename(b)
  {
    if FileUrl(a) == FileUrl(b) {
      assert FileUrl(a)[|UploadsUrl|..] == FileUrl(b)[|UploadsUrl|..];
    }
  }

  /**
   * The names ".", ".." and "" consist of safe characters, so they pass
   * unchanged, and FileUrl maps them to the prefix followed by them. Joined to
   * the upload directory they name the directory itself or its parent, where
   * the endpoint's write fails before any URL is returned.
   */
  lemma DotNamesKept()
    ensures SanitizeFilename("") == ""
    ensures SanitizeFilename(".") == "." && SanitizeFilename("..") == ".."
    ensures FileUrl("") == UploadsUrl && FileUrl(".") == UploadsUrl + "." && FileUrl("..") == UploadsUrl + ".."
  {
    SanitizeKeepsSafeNames(".");
    SanitizeKeepsSafeNames("..");
  }

  /**
   * The keys of the classifier's dictionary that the rule reads: "emotion"
   * and "confidence", each None when the key is missing.
   */
  datatype EmotionalAnalysis = EmotionalAnalysis(emotion: Option<string>, confidence: Option<real>)

  /** The exact binary64 values of the literals 0.7 and 0.6 the confidence is compared with. */
  const SadnessThreshold: real := 0.6999999999999999555910790149937383830547332763671875
  const AngerThreshold: real := 0.59999999999999997779553950749686919152736663818359375

  const WarmColours: string := "Fomentar actividades con colores cálidos y ejercicios creativos"
  const Relaxation: string := "Técnicas de relajación y trazos suaves recomendados"

  /** emotional_analysis.get("confidence", 0). */
  function Confidence(a: EmotionalAnalysis): real
  {
    if a.confidence.Some? then a.confidence.value else 0.0
  }

  /**
   * generate_recommendations: at most one recommendation. Sadness above 0.7
   * asks for warm colours, anger above 0.6 for relaxation; a confidence at the
   * threshold, any other emotion, or a missing emotion or confidence gives none.
   */
  method GenerateRecommendations(a: EmotionalAnalysis) returns (recommendations: seq<string>)
    ensures |recommendations| <= 1
    ensures recommendations == [WarmColours] <==> a.emotion == Some("tristeza") && a.confidence.Some? && a.confidence.value > SadnessThreshold
    ensures recommendations == [Relaxation] <==> a.emotion == Some("enojo") && a.confidence.Some? && a.confidence.value > AngerThreshold
    ensures recommendations == [] <==>
      !(a.emotion == Some("tristeza") && Confidence(a) > SadnessThreshold) &&
      !(a.emotion == Some("enojo") && Confidence(a) > AngerThreshold)
  {
    assert |WarmColours| != |Relaxation|;
    assert [WarmColours][0] != [Relaxation][0];
    var emotion := a.emotion;
    var confidence := Confidence(a);
    recommendations := [];
    if emotion == Some("tristeza") && confidence > SadnessThreshold {
      recommendations := recommendations + [WarmColours];
    } else if emotion == Some("enojo") && confidence > AngerThreshold {
      recommendations := recommendations + [Relaxation];
    }
  }
}
