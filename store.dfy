/**
 * The record store behind the "Search" and "Add" buttons: `data.json` held as an
 * optional map from website to its email and password (`None`: no file yet),
 * with the lookup of `get_details` and the validated read-merge-write of `save`
 * as functions on it.
 */
module Store {
  import opened Wrappers
  import opened Text

  /** The two field names of a saved account inside `data.json`. */
  const EmailKey: string := "email"
  const PasswordKey: string := "password"

  /** The saved details of one website. */
  datatype Record = Record(email: string, password: string)

  /** The contents of `data.json`: website name to account details. */
  type Data = map<string, Record>

  /** A record as the JSON object `{"email": ..., "password": ...}` it is written as. */
  function EncodeRecord(r: Record): (obj: map<string, string>)
    ensures obj.Keys == {EmailKey, PasswordKey}
    ensures obj[EmailKey] == r.email && obj[PasswordKey] == r.password
  {
    map[EmailKey := r.email, PasswordKey := r.password]
  }

  /** Reads the two fields back; `None` when either key is missing. */
  function DecodeRecord(obj: map<string, string>): (r: Option<Record>)
    ensures r.Some? <==> EmailKey in obj && PasswordKey in obj
    ensures r.Some? ==> r.value.email == obj[EmailKey] && r.value.password == obj[PasswordKey]
  {
    if EmailKey in obj && PasswordKey in obj then Some(Record(obj[EmailKey], obj[PasswordKey])) else None
  }

  /** Reading back a written record gives the same email and password. */
  lemma DecodeEncode(r: Record)
    ensures DecodeRecord(EncodeRecord(r)) == Some(r)
  {
  }

  // ---------------------------- get_details ----------------------------

  /** Why a lookup shows an error dialog instead of the details. */
  datatype LookupError =
    | EmptyWebsite                      // the website field is empty or whitespace
    | NoDataFile                        // `data.json` does not exist
    | WebsiteNotFound(website: string)  // the file has no entry for the (trimmed) website

  /** The account details for the website typed in `websiteInput`. */
  function Lookup(file: Option<Data>, websiteInput: string): (r: Result<Record, LookupError>)
    ensures r == Err(EmptyWebsite) <==> Strip(websiteInput) == []
    ensures r == Err(NoDataFile) <==> Strip(websiteInput) != [] && file.None?
    ensures r.Ok? <==> file.Some? && Strip(websiteInput) != [] && Strip(websiteInput) in file.value
    ensures r.Ok? ==> r.value == file.value[Strip(websiteInput)]
    ensures r.Err? && r.error.WebsiteNotFound? ==> r.error.website == Strip(websiteInput)
  {
    var website := Strip(websiteInput);
    if website == [] then Err(EmptyWebsite)
    else match file
      case None => Err(NoDataFile)
      case Some(data) =>
        if website in data then Ok(data[website]) else Err(WebsiteNotFound(website))
  }

  /** Padding the typed website with whitespace does not change what is found. */
  lemma LookupIgnoresPadding(file: Option<Data>, websiteInput: string)
    ensures Lookup(file, Strip(websiteInput)) == Lookup(file, websiteInput)
  {
    StripIdempotent(websiteInput);
  }

  // ------------------------------- save --------------------------------

  /** What `save` did: the error dialog, the declined confirmation, or one of the two writes. */
  datatype SaveOutcome =
    | EmptyFields  // a field is empty or whitespace; nothing is asked or written
    | Declined     // the user cancelled the confirmation; nothing is written
    | Created      // there was no `data.json`; it is written with the one new entry
    | Updated      // `data.json` existed; the entry is merged in and the file rewritten

  datatype Saved = Saved(outcome: SaveOutcome, file: Option<Data>)

  /** At least one of the three fields is empty once trimmed. */
  predicate AnyEmpty(website: string, email: string, password: string)
  {
    Strip(website) == [] || Strip(password) == [] || Strip(email) == []
  }

  /**
   * The write of a confirmed `save`: with no file, a file holding just the new
   * entry; otherwise the old contents with `website` set to `rec` (`dict.update`).
   */
  function Merge(file: Option<Data>, website: string, rec: Record): (r: Data)
    ensures file.None? ==> r.Keys == {website}
    ensures file.Some? ==> r.Keys == file.value.Keys + {website}
    ensures website in r && r[website] == rec
    ensures file.Some? ==> forall k :: k in file.value && k != website ==> r[k] == file.value[k]
  {
    var entry := map[website := rec];
    match file
    case None => entry
    case Some(data) => data + entry
  }

  /** Merging the same website twice keeps only the second record. */
  lemma MergeTwice(file: Option<Data>, website: string, r1: Record, r2: Record)
    ensures Merge(Some(Merge(file, website, r1)), website, r2) == Merge(file, website, r2)
  {
    match file
    case None =>
      assert map[website := r1] + map[website := r2] == map[website := r2];
    case Some(data) =>
      assert (data + map[website := r1]) + map[website := r2] == data + map[website := r2];
  }

  /**
   * `save` on the three field contents, with `confirmed` the answer to the
   * confirmation dialog (asked only when no field is empty).
   */
  function Save(file: Option<Data>, website: string, email: string, password: string, confirmed: bool): (r: Saved)
    ensures r.outcome == EmptyFields <==> AnyEmpty(website, email, password)
    ensures r.outcome == Declined <==> !AnyEmpty(website, email, password) && !confirmed
    ensures r.outcome == Created <==> !AnyEmpty(website, email, password) && confirmed && file.None?
    ensures r.outcome == Updated <==> !AnyEmpty(website, email, password) && confirmed && file.Some?
    // nothing is written unless both the check and the confirmation pass
    ensures (r.outcome == EmptyFields || r.outcome == Declined) ==> r.file == file
    // otherwise the trimmed entry is merged in
    ensures (r.outcome == Created || r.outcome == Updated) ==>
      r.file == Some(Merge(file, Strip(website), Record(Strip(email), Strip(password))))
  {
    var w, e, p := Strip(website), Strip(email), Strip(password);
    if w == [] || p == [] || e == [] then Saved(EmptyFields, file)
    else if !confirmed then Saved(Declined, file)
    else Saved(if file.None? then Created else Updated, Some(Merge(file, w, Record(e, p))))
  }

  /** After a confirmed save, searching for the same website shows the trimmed details. */
  lemma LookupAfterSave(file: Option<Data>, website: string, email: string, password: string)
    requires !AnyEmpty(website, email, password)
    ensures Lookup(Save(file, website, email, password, true).file, website)
         == Ok(Record(Strip(email), Strip(password)))
  {
  }

  /** A second confirmed save of the same website replaces the first wholesale. */
  lemma LastWriteWins(file: Option<Data>, website: string, e1: string, p1: string, e2: string, p2: string)
    requires !AnyEmpty(website, e1, p1) && !AnyEmpty(website, e2, p2)
    ensures Save(Save(file, website, e1, p1, true).file, website, e2, p2, true).file
         == Save(file, website, e2, p2, true).file
  {
    var w := Strip(website);
    var r1, r2 := Record(Strip(e1), Strip(p1)), Record(Strip(e2), Strip(p2));
    var once := Merge(file, w, r1);
    assert Save(file, website, e1, p1, true).file == Some(once);
    MergeTwice(file, w, r1, r2);
  }

  /** Saving one website leaves the lookup of every other stored website as it was. */
  lemma SaveIsolation(file: Option<Data>, website: string, email: string, password: string,
                      confirmed: bool, other: string)
    requires file.Some? && Strip(other) != Strip(website)
    ensures Lookup(Save(file, website, email, password, confirmed).file, other) == Lookup(file, other)
  {
  }

  /** A store written only by `save`: trimmed, non-empty keys, emails and passwords. */
  ghost predicate Normalized(data: Data)
  {
    forall k :: k in data ==>
      k != [] && Unpadded(k) &&
      data[k].email != [] && Unpadded(data[k].email) &&
      data[k].password != [] && Unpadded(data[k].password)
  }

  /** Merging a trimmed, non-empty entry into a normalized store keeps it normalized. */
  lemma MergeKeepsNormalized(file: Option<Data>, website: string, rec: Record)
    requires file.Some? ==> Normalized(file.value)
    requires Normalized(map[website := rec])
    ensures Normalized(Merge(file, website, rec))
  {
    var data := Merge(file, website, rec);
    forall k | k in data
      ensures k != [] && Unpadded(k)
      ensures data[k].email != [] && Unpadded(data[k].email)
      ensures data[k].password != [] && Unpadded(data[k].password)
    {
      if k == website {
        assert k in map[website := rec];
      } else {
        assert file.Some? && k in file.value && data[k] == file.value[k];
      }
    }
  }

  /** `save` keeps a store normalized, whatever its outcome. */
  lemma SaveKeepsNormalized(file: Option<Data>, website: string, email: string, password: string, confirmed: bool)
    requires file.Some? ==> Normalized(file.value)
    ensures var r := Save(file, website, email, password, confirmed).file;
            r.Some? ==> Normalized(r.value)
  {
    if !AnyEmpty(website, email, password) && confirmed {
      var w, rec := Strip(website), Record(Strip(email), Strip(password));
      StripUnpads(website);
      StripUnpads(email);
      StripUnpads(password);
      assert Normalized(map[w := rec]);
      MergeKeepsNormalized(file, w, rec);
    }
  }

  /** In a normalized store every saved website can be found by typing its name. */
  lemma NormalizedKeysFound(data: Data, website: string)
    requires Normalized(data) && website in data
    ensures Lookup(Some(data), website) == Ok(data[website])
  {
    StripUnpadded(website);
  }

  /** A confirmed save of fields that need no trimming writes them as typed. */
  lemma SaveUnpadded(file: Option<Data>, website: string, email: string, password: string)
    requires website != [] && email != [] && password != []
    requires Unpadded(website) && Unpadded(email) && Unpadded(password)
    ensures Save(file, website, email, password, true)
         == Saved(if file.None? then Created else Updated, Some(Merge(file, website, Record(email, password))))
  {
    StripUnpadded(website);
    StripUnpadded(email);
    StripUnpadded(password);
  }

  /** The first save on a machine with no `data.json` creates it with the one entry. */
  lemma FirstSaveScenario()
    ensures Save(None, "example.com", "a@b.com", "Zz1!", true)
         == Saved(Created, Some(map["example.com" := Record("a@b.com", "Zz1!")]))
  {
    SaveUnpadded(None, "example.com", "a@b.com", "Zz1!");
  }

  /** A save for a second website adds its entry and keeps the first. */
  lemma SecondSaveScenario()
    ensures Save(Some(map["example.com" := Record("a@b.com", "Zz1!")]), "bank.test", "c@d.com", "Yy2@", true)
         == Saved(Updated, Some(map["example.com" := Record("a@b.com", "Zz1!"),
                                    "bank.test" := Record("c@d.com", "Yy2@")]))
  {
    var before := map["example.com" := Record("a@b.com", "Zz1!")];
    SaveUnpadded(Some(before), "bank.test", "c@d.com", "Yy2@");
    assert before + map["bank.test" := Record("c@d.com", "Yy2@")]
        == map["example.com" := Record("a@b.com", "Zz1!"), "bank.test" := Record("c@d.com", "Yy2@")];
  }
}
