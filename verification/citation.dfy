/**
 * The `citation` endpoint: APA, MLA and BibTeX renderings of a metadata
 * object, the BibTeX key, and the year scanner `extract_year`
 * (`re.search(r'\b(19|20)\d{2}\b', date)`, ASCII word characters).
 */
module Citation {
  import opened Text
  import opened Values

  /** `\b(19|20)\d{2}\b` matches the four characters at `p`. */
  predicate YearAt(s: string, p: int) {
    && 0 <= p && p + 4 <= |s|
    && ((s[p] == '1' && s[p + 1] == '9') || (s[p] == '2' && s[p + 1] == '0'))
    && IsDigit(s[p + 2]) && IsDigit(s[p + 3])
    && (p == 0 || !IsWordChar(s[p - 1]))
    && (p + 4 == |s| || !IsWordChar(s[p + 4]))
  }

  /** The leftmost match at or after `from`. */
  function FindYear(s: string, from: nat): (r: Option<nat>)
    decreases |s| - from
    ensures r.Some? ==> from <= r.value && YearAt(s, r.value)
    ensures r.Some? ==> forall q :: from <= q < r.value ==> !YearAt(s, q)
    ensures r.None? ==> forall q :: from <= q ==> !YearAt(s, q)
  {
    if from + 4 > |s| then None
    else if YearAt(s, from) then Some(from)
    else FindYear(s, from + 1)
  }

  /** `extract_year`: the leftmost year-like word, or `'n.d.'`. */
  function ExtractYear(date: string): (y: string)
    ensures y == "n.d." <==> forall p :: !YearAt(date, p)
    ensures y != "n.d." ==> exists p :: YearAt(date, p) && y == date[p..p + 4] && forall q :: 0 <= q < p ==> !YearAt(date, q)
    ensures y != "n.d." ==> |y| == 4 && forall i :: 0 <= i < 4 ==> IsDigit(y[i])
  {
    match FindYear(date, 0)
    case Some(p) => date[p..p + 4]
    case None => "n.d."
  }

  /** `re.sub(r'[^\w]', '', s)`: the word characters of `s`, in order. */
  function WordChars(s: string): (r: string)
    ensures |r| <= |s|
    ensures forall i :: 0 <= i < |r| ==> IsWordChar(r[i])
  {
    if s == "" then ""
    else if IsWordChar(s[0]) then [s[0]] + WordChars(s[1..])
    else WordChars(s[1..])
  }

  const KeyLength := 20

  /**
   * `re.sub(r'[^\w]', '', title).lower()[:20]`: the first twenty word
   * characters of the title (all of them when there are fewer), lower-cased.
   */
  function BibtexKey(title: string): (key: string)
    ensures |key| <= KeyLength
    ensures |key| == if |WordChars(title)| < KeyLength then |WordChars(title)| else KeyLength
    ensures forall i :: 0 <= i < |key| ==> key[i] == LowerChar(WordChars(title)[i])
    ensures forall i :: 0 <= i < |key| ==> IsWordChar(key[i]) && !IsUpper(key[i])
  {
    var lowered := Lower(WordChars(title));
    if |lowered| > KeyLength then lowered[..KeyLength] else lowered
  }

  /** A word character is kept and any other character is dropped. */
  lemma WordCharsOfChar(c: char)
    ensures WordChars([c]) == if IsWordChar(c) then [c] else []
  {
  }

  /** A string of word characters keeps all of them. */
  lemma {:induction false} WordCharsOfWord(s: string)
    requires forall i :: 0 <= i < |s| ==> IsWordChar(s[i])
    ensures WordChars(s) == s
  {
    if s != "" {
      WordCharsOfWord(s[1..]);
      assert s == [s[0]] + s[1..];
    }
  }

  /** A key is its own key: the key is a fixed point of the key construction. */
  lemma BibtexKeyIdempotent(title: string)
    ensures BibtexKey(BibtexKey(title)) == BibtexKey(title)
  {
    var key := BibtexKey(title);
    WordCharsOfWord(key);
    assert Lower(key) == key;
  }

  /** The metadata fields read from the request, with their defaults. */
  datatype Metadata = Metadata(title: Json, authors: Json, url: Json, date: Json)

  function ReadMetadata(fields: map<string, Json>): Metadata {
    Metadata(
      Get(fields, "title", Str("Unknown Title")),
      Get(fields, "authors", Str("Unknown Author")),
      Get(fields, "url", Str("")),
      Get(fields, "date", Str("")))
  }

  /** An f-string hole: a string as is, anything else through `str`. */
  function Show(v: Json, str: Json -> string): string {
    if v.Str? then v.s else str(v)
  }

  function AuthorText(authors: Json, str: Json -> string): string {
    if authors == Str("Unknown Author") then "Anonymous" else Show(authors, str)
  }

  /** The year in an APA citation; a truthy date is a string (otherwise `re.search` raises). */
  function ApaYear(date: Json): string
    requires !Truthy(date) || date.Str?
  {
    if Truthy(date) then ExtractYear(date.s) else "n.d."
  }

  function BibtexYear(date: Json): string
    requires !Truthy(date) || date.Str?
  {
    if Truthy(date) then ExtractYear(date.s) else "nodate"
  }

  function Apa(m: Metadata, str: Json -> string): string
    requires !Truthy(m.date) || m.date.Str?
  {
    AuthorText(m.authors, str) + ". (" + ApaYear(m.date) + "). " + Show(m.title, str)
      + ". Retrieved from " + Show(m.url, str)
  }

  function Mla(m: Metadata, str: Json -> string): string {
    AuthorText(m.authors, str) + ". \"" + Show(m.title, str) + ".\" "
      + (if Truthy(m.date) then Show(m.date, str) else "n.d.") + ". " + Show(m.url, str)
  }

  /** One `  name = {value}` line of a BibTeX entry. */
  function Field(name: string, value: string): string {
    "  " + name + " = {" + value + "}"
  }

  function Bibtex(m: Metadata, str: Json -> string): string
    requires m.title.Str?
    requires !Truthy(m.date) || m.date.Str?
  {
    "@misc{" + BibtexKey(m.title.s) + ",\n"
      + Field("title", m.title.s) + ",\n"
      + Field("author", Show(m.authors, str)) + ",\n"
      + Field("year", BibtexYear(m.date)) + ",\n"
      + Field("url", Show(m.url, str)) + "\n}"
  }

  datatype Reply = BadRequest | ServerError | Citations(apa: string, mla: string, bibtex: string)

  /** An object whose title is a string and whose date, if truthy, is a string. */
  predicate Formattable(data: Json) {
    && data.Obj?
    && ReadMetadata(data.fields).title.Str?
    && (!Truthy(ReadMetadata(data.fields).date) || ReadMetadata(data.fields).date.Str?)
  }

  /**
   * The endpoint: `if not data` answers 400 (an empty object included);
   * `.get` on a non-object, `re.search` on a truthy non-string date and
   * `re.sub` on a non-string title raise, which Flask answers 500.
   */
  function Cite(data: Json, str: Json -> string): (r: Reply)
    ensures r.BadRequest? <==> !Truthy(data)
    ensures r.ServerError? <==> Truthy(data) && !Formattable(data)
    ensures r.Citations? ==> var m := ReadMetadata(data.fields);
      r == Citations(Apa(m, str), Mla(m, str), Bibtex(m, str))
  {
    if !Truthy(data) then BadRequest
    else if !data.Obj? then ServerError
    else
      var m := ReadMetadata(data.fields);
      if Truthy(m.date) && !m.date.Str? then ServerError
      else if !m.title.Str? then ServerError
      else Citations(Apa(m, str), Mla(m, str), Bibtex(m, str))
  }

  /**
   * The BibTeX year is `nodate` exactly when the date is empty, and `n.d.`
   * exactly when the date is non-empty but holds no year; the APA year is
   * `n.d.` exactly when the date is empty or holds no year.
   */
  lemma YearFields(date: Json)
    requires !Truthy(date) || date.Str?
    ensures BibtexYear(date) == "nodate" <==> !Truthy(date)
    ensures BibtexYear(date) == "n.d." <==> Truthy(date) && forall p :: !YearAt(date.s, p)
    ensures ApaYear(date) == "n.d." <==> !Truthy(date) || forall p :: !YearAt(date.s, p)
  {
    if Truthy(date) {
      var y := ExtractYear(date.s);
      assert |y| == 4;
      assert |"nodate"| == 6;
    }
  }

  /** APA and MLA write the default author as `Anonymous`. */
  lemma AnonymousAuthor(m: Metadata, str: Json -> string)
    requires m.authors == Str("Unknown Author")
    requires !Truthy(m.date) || m.date.Str?
    ensures StartsWith(Apa(m, str), "Anonymous. (")
    ensures StartsWith(Mla(m, str), "Anonymous. \"")
  {
  }

  /** MLA writes an empty date as `n.d.`, between the title and the URL. */
  lemma MlaNoDate(m: Metadata, str: Json -> string)
    requires !Truthy(m.date)
    ensures Mla(m, str) == AuthorText(m.authors, str) + ". \"" + Show(m.title, str) + ".\" n.d.. " + Show(m.url, str)
  {
  }

  /** BibTeX keeps the author verbatim, the default included, in its author field. */
  lemma BibtexAuthor(m: Metadata, str: Json -> string)
    requires m.title.Str?
    requires !Truthy(m.date) || m.date.Str?
    ensures Contains(Bibtex(m, str), Field("author", Show(m.authors, str)))
  {
    var author := Field("author", Show(m.authors, str));
    var year := Field("year", BibtexYear(m.date));
    var url := Field("url", Show(m.url, str));
    var head := "@misc{" + BibtexKey(m.title.s) + ",\n" + Field("title", m.title.s) + ",\n";
    ContainsEnd(head, author);
    ContainsAppend(head + author, ",\n", author);
    ContainsAppend(head + author + ",\n", year, author);
    ContainsAppend(head + author + ",\n" + year, ",\n", author);
    ContainsAppend(head + author + ",\n" + year + ",\n", url, author);
    ContainsAppend(head + author + ",\n" + year + ",\n" + url, "\n}", author);
  }

  /** Removing the non-word characters distributes over concatenation. */
  lemma {:induction false} WordCharsAppend(a: string, b: string)
    ensures WordChars(a + b) == WordChars(a) + WordChars(b)
  {
    if a != "" {
      assert (a + b)[0] == a[0];
      assert (a + b)[1..] == a[1..] + b;
      WordCharsAppend(a[1..], b);
    } else {
      assert a + b == b;
    }
  }

  /**
   * Missing fields take their defaults: the author is written `Anonymous`
   * in APA and MLA, the year `n.d.` there and `nodate` in BibTeX, and the
   * URL is empty.
   */
  lemma Defaults(fields: map<string, Json>, str: Json -> string)
    requires "title" !in fields && "authors" !in fields && "url" !in fields && "date" !in fields
    ensures ReadMetadata(fields) == Metadata(Str("Unknown Title"), Str("Unknown Author"), Str(""), Str(""))
    ensures AuthorText(ReadMetadata(fields).authors, str) == "Anonymous"
    ensures ApaYear(ReadMetadata(fields).date) == "n.d."
    ensures BibtexYear(ReadMetadata(fields).date) == "nodate"
    ensures Show(ReadMetadata(fields).url, str) == ""
    ensures Mla(ReadMetadata(fields), str) == "Anonymous. \"Unknown Title.\" n.d.. "
  {
  }

  /**
   * A non-empty object without any of the four fields is formatted with
   * the defaults (an empty one is falsy and refused, see `Cite`).
   */
  lemma DefaultsAccepted(fields: map<string, Json>, str: Json -> string)
    requires "title" !in fields && "authors" !in fields && "url" !in fields && "date" !in fields
    requires fields != map[]
    ensures Cite(Obj(fields), str).Citations?
  {
    assert Formattable(Obj(fields)) by {
      assert ReadMetadata(fields).title == Str("Unknown Title");
      assert ReadMetadata(fields).date == Str("");
    }
  }
}
