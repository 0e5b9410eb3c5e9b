/**
 * The window's state: `data.json` and the three entry fields, with the three
 * button handlers as methods. Dialogs become return values; the answer to the
 * confirmation dialog is a parameter.
 */
module Manager {
  import opened Wrappers
  import opened Store
  import Generator

  /** The text the email field starts with. */
  const DefaultEmail: string := "example@email.com"

  class PasswordManager {
    /** `data.json`; `None` while the file does not exist. */
    var dataFile: Option<Data>
    var websiteEntry: string
    var emailEntry: string
    var passwordEntry: string

    /** The window as it opens: website and password empty, email pre-filled. */
    constructor (existing: Option<Data>)
      ensures dataFile == existing
      ensures websiteEntry == [] && emailEntry == DefaultEmail && passwordEntry == []
    {
      dataFile := existing;
      websiteEntry, emailEntry, passwordEntry := [], DefaultEmail, [];
    }

    /** The "Search" button: the details shown, or which error dialog appears. */
    method GetDetails() returns (r: Result<Record, LookupError>)
      ensures r == Lookup(dataFile, websiteEntry)
    {
      r := Lookup(dataFile, websiteEntry);
    }

    /** The "Generate Password" button: the new password replaces the password field. */
    method GeneratePassword(letterPicks: seq<nat>, symbolPicks: seq<nat>, numberPicks: seq<nat>, draws: seq<nat>)
      returns (password: string)
      requires 8 <= |letterPicks| <= 10 && 2 <= |symbolPicks| <= 4 && 2 <= |numberPicks| <= 4
      requires Generator.ValidPicks(Generator.Letters, letterPicks)
      requires Generator.ValidPicks(Generator.Symbols, symbolPicks)
      requires Generator.ValidPicks(Generator.Numbers, numberPicks)
      requires Generator.ValidDraws(draws, |letterPicks| + |symbolPicks| + |numberPicks|)
      modifies this`passwordEntry
      ensures passwordEntry == password
      ensures 12 <= |password| <= 18
      ensures multiset(password) == multiset(Generator.Compose(letterPicks, symbolPicks, numberPicks))
    {
      password := Generator.Generate(letterPicks, symbolPicks, numberPicks, draws);
      passwordEntry := password;
    }

    /**
     * The "Add" button. The website and password fields are cleared only when
     * `data.json` already existed; the email field is never cleared.
     */
    method Save(confirmed: bool) returns (outcome: SaveOutcome)
      modifies this`dataFile, this`websiteEntry, this`passwordEntry
      ensures var r := Store.Save(old(dataFile), old(websiteEntry), old(emailEntry), old(passwordEntry), confirmed);
              outcome == r.outcome && dataFile == r.file
      ensures outcome == Updated ==> websiteEntry == [] && passwordEntry == []
      ensures outcome != Updated ==> websiteEntry == old(websiteEntry) && passwordEntry == old(passwordEntry)
    {
      var r := Store.Save(dataFile, websiteEntry, emailEntry, passwordEntry, confirmed);
      outcome, dataFile := r.outcome, r.file;
      if outcome == Updated {
        websiteEntry, passwordEntry := [], [];
      }
    }
  }
}
