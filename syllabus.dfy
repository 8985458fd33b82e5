/**
 * Where the prompt's syllabus text comes from: a cache file younger than seven days,
 * else text freshly extracted from the syllabus PDF (cleaned and written back to the
 * cache), else, when the PDF is missing or cannot be read, the cache of any age,
 * else an error; and above that, a fixed fallback text whenever all of that fails.
 * The file system is abstract state: the cache file's presence and contents, the
 * data directory, and whether the PDF exists. The PDF parser's result is an input.
 */
module Syllabus {
  import opened Wrappers
  import opened TextCleaning

  /** Milliseconds in a day: `1000 * 60 * 60 * 24`. */
  const DayMs: int := 1000 * 60 * 60 * 24

  /** The version string written into every cache file. */
  const CacheVersion := "2021_P1_to_P6_Updated_Dec_2023"

  /**
   * The JSON cache file. `extractedAt` is the written timestamp in milliseconds, or
   * None when its date string does not parse (JavaScript's invalid date).
   */
  datatype CacheFile = NoCacheFile
                     | UnreadableCache
                     | CacheFile(text: string, extractedAt: Option<int>, version: string)

  /** What the PDF parser makes of the syllabus PDF. */
  datatype PdfExtraction = PdfText(raw: string) | PdfUnreadable(message: string)

  /**
   * Why extraction failed: the PDF is missing ("Syllabus PDF not found in resources
   * folder"), the parser failed with a message, or the cache file is not valid JSON.
   */
  datatype SyllabusError = PdfNotFound | ExtractionFailed(message: string) | CacheUnreadable

  /** The value `extractSyllabusContent` resolves to, or the error it rejects with. */
  datatype Outcome = Content(text: string) | Thrown(error: SyllabusError)

  /**
   * The cache is recent when fewer than seven whole days (a real number of days)
   * separate its timestamp from now; an invalid date is never recent.
   */
  function IsFresh(extractedAt: Option<int>, now: int): (recent: bool)
    ensures recent <==> extractedAt.Some? && now - extractedAt.value < 7 * DayMs
  {
    match extractedAt
    case None => false
    case Some(t) => (now - t) as real / (DayMs as real) < 7.0
  }

  /** The cache has to be replaced from the PDF: there is none, or its text is too old. */
  predicate NeedsExtraction(cache: CacheFile, now: int) {
    cache.NoCacheFile? || (cache.CacheFile? && !IsFresh(cache.extractedAt, now))
  }

  /**
   * The content policy as a ladder: a fresh cache; an unreadable cache is an error;
   * freshly extracted text; a stale cache when extraction is impossible; an error.
   */
  function Policy(cache: CacheFile, pdfExists: bool, now: int, extraction: PdfExtraction): (r: Outcome)
    // a readable cache file, of any age, always saves the call
    ensures cache.CacheFile? ==> r.Content?
    // text that does not come from the cache is clean
    ensures r.Content? && !(cache.CacheFile? && r.text == cache.text) ==> IsClean(r.text)
    // the only errors are the three, each with its cause
    ensures r == Thrown(CacheUnreadable) <==> cache.UnreadableCache?
    ensures r == Thrown(PdfNotFound) <==> cache.NoCacheFile? && !pdfExists
    // a missing or stale cache with a PDF that gives text serves that text, cleaned
    ensures NeedsExtraction(cache, now) && pdfExists && extraction.PdfText? ==> r == Content(Clean(extraction.raw))
    // otherwise a readable cache is served as it is
    ensures cache.CacheFile? && !(NeedsExtraction(cache, now) && pdfExists && extraction.PdfText?) ==>
              r == Content(cache.text)
    // with no cache at all, the parser's own error is rethrown
    ensures cache.NoCacheFile? && pdfExists && extraction.PdfUnreadable? ==> r == Thrown(ExtractionFailed(extraction.message))
  {
    if cache.CacheFile? && IsFresh(cache.extractedAt, now) then Content(cache.text)
    else if cache.UnreadableCache? then Thrown(CacheUnreadable)
    else if pdfExists && extraction.PdfText? then Content(Clean(extraction.raw))
    else if cache.CacheFile? then Content(cache.text)
    else if !pdfExists then Thrown(PdfNotFound)
    else Thrown(ExtractionFailed(extraction.message))
  }

  /** `getFallbackSyllabusContent()`, returned as it is, without cleaning. */
  const FallbackSyllabusContent: string :=
      "\n"
      + "    PRIMARY MATHEMATICS SYLLABUS (P1 to P6)\n"
      + "    \n"
      + "    PRIMARY 5 (Ages 10-11) MATHEMATICS STANDARDS:\n"
      + "    \n"
      + "    NUMBER AND ALGEBRA:\n"
      + "    - Whole numbers up to 1,000,000\n"
      + "    - Four operations with whole numbers and decimals\n"
      + "    - Fractions: equivalent fractions, comparing and ordering\n"
      + "    - Decimals: place value, comparing and ordering\n"
      + "    - Percentage: basic concepts and calculations\n"
      + "    \n"
      + "    MEASUREMENT AND GEOMETRY:\n"
      + "    - Length, mass, volume, time, money\n"
      + "    - Area and perimeter of rectangles and squares\n"
      + "    - Volume of cubes and cuboids\n"
      + "    - Angles: types and measurement\n"
      + "    - 2D and 3D shapes\n"
      + "    \n"
      + "    STATISTICS:\n"
      + "    - Data collection and representation\n"
      + "    - Simple graphs and charts\n"
      + "    - Mean, mode, median (basic concepts)\n"
      + "    \n"
      + "    PROBLEM SOLVING:\n"
      + "    - Multi-step word problems\n"
      + "    - Real-world applications\n"
      + "    - Logical reasoning and mathematical thinking\n"
      + "    \n"
      + "    QUESTION FORMAT STANDARDS:\n"
      + "    - Clear, age-appropriate language\n"
      + "    - Real-world contexts relevant to children\n"
      + "    - Progressive difficulty levels\n"
      + "    - Multiple solution methods encouraged\n"
      + "    - Emphasis on understanding over memorization\n"
      + "    "

  /**
   * The fallback text is served as written, unlike extracted text: it begins with a
   * line break and indentation, so it is not in cleaned form.
   */
  lemma FallbackIsNotCleaned()
    ensures |FallbackSyllabusContent| > 0 && FallbackSyllabusContent[0] == '\n'
    ensures !IsClean(FallbackSyllabusContent)
  {
    assert IsSpace(FallbackSyllabusContent[0]);
  }

  /** `process.env.NODE_ENV === 'production' && process.env.VERCEL_ENV`, taken as a boolean. */
  function IsBuildTime(nodeEnv: string, vercelEnv: Option<string>): (buildTime: bool)
    ensures buildTime ==> nodeEnv == "production"
    // an unset or empty VERCEL_ENV is never build time
    ensures vercelEnv.None? || vercelEnv.value == "" ==> !buildTime
  {
    nodeEnv == "production" && vercelEnv.Some? && vercelEnv.value != ""
  }

  /** The text `getSyllabusContent` makes of the extractor's outcome: its error becomes the fallback text. */
  function ServedText(o: Outcome): string {
    match o
    case Content(t) => t
    case Thrown(_) => FallbackSyllabusContent
  }

  /** The files the extractor sees. The PDF is only ever read. */
  class SyllabusFiles {
    var cache: CacheFile
    var dataDirExists: bool
    const pdfExists: bool
    /** How many times the PDF has been read and handed to the parser. */
    ghost var pdfReads: nat

    /** A cache file can only exist inside the data directory. */
    ghost predicate Valid()
      reads this
    {
      !cache.NoCacheFile? ==> dataDirExists
    }

    constructor (cache: CacheFile, dataDirExists: bool, pdfExists: bool)
      requires !cache.NoCacheFile? ==> dataDirExists
      ensures Valid()
      ensures this.cache == cache && this.dataDirExists == dataDirExists && this.pdfExists == pdfExists
      ensures pdfReads == 0
    {
      this.cache := cache;
      this.dataDirExists := dataDirExists;
      this.pdfExists := pdfExists;
      pdfReads := 0;
    }

    /**
     * `extractSyllabusContent()` with the clock reading `now` (milliseconds) at the
     * freshness check and `writtenAt` when the cache entry is built after the parse,
     * the parser answering with `extraction` if the PDF is read.
     */
    method ExtractSyllabusContent(now: int, writtenAt: int, extraction: PdfExtraction) returns (r: Outcome)
      requires Valid()
      modifies this
      ensures Valid()
      ensures r == Policy(old(cache), pdfExists, now, extraction)
      // the PDF is read exactly when the cache is missing or stale
      ensures pdfReads == old(pdfReads) + if NeedsExtraction(old(cache), now) && pdfExists then 1 else 0
      // the cache is rewritten, with the cleaned text and the current time, exactly
      // when the PDF was read successfully; otherwise it is left as it was
      ensures NeedsExtraction(old(cache), now) && pdfExists && extraction.PdfText? ==>
                cache == CacheFile(Clean(extraction.raw), Some(writtenAt), CacheVersion) && dataDirExists
      ensures !(NeedsExtraction(old(cache), now) && pdfExists && extraction.PdfText?) ==>
                cache == old(cache) && dataDirExists == old(dataDirExists)
    {
      // the try block
      var failure: Option<SyllabusError> := None;
      match cache {
        case UnreadableCache =>
          failure := Some(CacheUnreadable);
        case CacheFile(text, extractedAt, _) =>
          if IsFresh(extractedAt, now) {
            return Content(text);
          }
        case NoCacheFile =>
      }
      if failure.None? {
        if !pdfExists {
          failure := Some(PdfNotFound);
        } else {
          pdfReads := pdfReads + 1;
          match extraction {
            case PdfUnreadable(message) =>
              failure := Some(ExtractionFailed(message));
            case PdfText(raw) =>
              var cleanText := Clean(raw);
              if !dataDirExists {
                dataDirExists := true;
              }
              cache := CacheFile(cleanText, Some(writtenAt), CacheVersion);
              return Content(cleanText);
          }
        }
      }
      // the catch block: fall back to the cache file, whatever its age
      match cache {
        case CacheFile(text, _, _) =>
          r := Content(text);
        case UnreadableCache =>
          r := Thrown(CacheUnreadable);
        case NoCacheFile =>
          r := Thrown(failure.value);
      }
    }

    /**
     * `getSyllabusContent()`: the fallback text at build time, otherwise the
     * extractor's text, or the fallback text when the extractor fails. It never fails.
     */
    method GetSyllabusContent(nodeEnv: string, vercelEnv: Option<string>, now: int, writtenAt: int,
                               extraction: PdfExtraction)
      returns (text: string)
      requires Valid()
      modifies this
      ensures Valid()
      // at build time no file is touched
      ensures IsBuildTime(nodeEnv, vercelEnv) ==>
                && text == FallbackSyllabusContent
                && cache == old(cache) && dataDirExists == old(dataDirExists) && pdfReads == old(pdfReads)
      // otherwise the extractor runs, with all its effects on the files
      ensures !IsBuildTime(nodeEnv, vercelEnv) ==>
                && text == ServedText(Policy(old(cache), pdfExists, now, extraction))
                && pdfReads == old(pdfReads) + (if NeedsExtraction(old(cache), now) && pdfExists then 1 else 0)
                && (if NeedsExtraction(old(cache), now) && pdfExists && extraction.PdfText?
                    then cache == CacheFile(Clean(extraction.raw), Some(writtenAt), CacheVersion) && dataDirExists
                    else cache == old(cache) && dataDirExists == old(dataDirExists))
    {
      if IsBuildTime(nodeEnv, vercelEnv) {
        return FallbackSyllabusContent;
      }
      text := ExtractOrFallback(now, writtenAt, extraction);
    }

    /** The `try`/`catch` around the extractor in `getSyllabusContent`. */
    method ExtractOrFallback(now: int, writtenAt: int, extraction: PdfExtraction) returns (text: string)
      requires Valid()
      modifies this
      ensures Valid()
      ensures text == ServedText(Policy(old(cache), pdfExists, now, extraction))
      ensures pdfReads == old(pdfReads) + if NeedsExtraction(old(cache), now) && pdfExists then 1 else 0
      ensures NeedsExtraction(old(cache), now) && pdfExists && extraction.PdfText? ==>
                cache == CacheFile(Clean(extraction.raw), Some(writtenAt), CacheVersion) && dataDirExists
      ensures !(NeedsExtraction(old(cache), now) && pdfExists && extraction.PdfText?) ==>
                cache == old(cache) && dataDirExists == old(dataDirExists)
    {
      var r := ExtractSyllabusContent(now, writtenAt, extraction);
      match r {
        case Content(t) => text := t;
        case Thrown(_) => text := FallbackSyllabusContent;
      }
      assert text == ServedText(r);
    }
  }

  // ---------------------------------------------------------------------------
  // Properties of the policy

  /** A cache younger than seven days is served as it is, whatever the PDF. */
  lemma FreshCacheIsServed(cache: CacheFile, pdfExists: bool, now: int, extraction: PdfExtraction)
    requires cache.CacheFile? && cache.extractedAt.Some?
    requires now - cache.extractedAt.value < 7 * DayMs
    ensures Policy(cache, pdfExists, now, extraction) == Content(cache.text)
  {
  }

  /** When the PDF cannot give text, a cache of any age is served instead of failing. */
  lemma StaleCacheCoversFailure(cache: CacheFile, pdfExists: bool, now: int, extraction: PdfExtraction)
    requires cache.CacheFile?
    requires !pdfExists || extraction.PdfUnreadable?
    ensures Policy(cache, pdfExists, now, extraction) == Content(cache.text)
  {
  }

  /**
   * Served text is the cache's text or cleaned PDF text; the extractor fails only
   * without a usable cache, and then with the reason the PDF gave.
   */
  lemma PolicyOutcomes(cache: CacheFile, pdfExists: bool, now: int, extraction: PdfExtraction)
    ensures match Policy(cache, pdfExists, now, extraction)
            case Content(t) =>
              (cache.CacheFile? && t == cache.text)
              || (pdfExists && extraction.PdfText? && t == Clean(extraction.raw) && IsClean(t))
            case Thrown(e) =>
              !cache.CacheFile?
              && (e == CacheUnreadable <==> cache.UnreadableCache?)
              && (e == PdfNotFound ==> !pdfExists)
  {
  }

  /**
   * What an extraction writes is served back unchanged by every later call within
   * seven days, without touching the PDF.
   */
  lemma WrittenCacheIsServedBack(raw: string, written: int, now: int, pdfExists: bool, extraction: PdfExtraction)
    requires written <= now < written + 7 * DayMs
    ensures var cache := CacheFile(Clean(raw), Some(written), CacheVersion);
      && !NeedsExtraction(cache, now)
      && Policy(cache, pdfExists, now, extraction) == Content(Clean(raw))
  {
  }
}
