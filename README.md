# Password manager: record store and password generator

A model of the logic of a small Tkinter password manager (`main.py`). The window
has three entry fields (website, email, password) and three buttons:

- **Search** (`get_details`) trims the website and looks it up in `data.json`.
- **Add** (`save`) trims all three fields, rejects empty ones, asks for
  confirmation, and writes the entry. With no `data.json` it writes a file with
  just that entry. Otherwise it merges the entry into the file's dictionary and
  rewrites it.
- **Generate Password** (`generate_password`) draws 8–10 letters, 2–4 symbols and
  2–4 digits, shuffles them, and puts the result in the password field.

The model uses five modules:

- `Wrappers` holds `Option` and `Result`.
- `Text` holds Python's `str.strip()`, written as `lstrip()` then `rstrip()`. It
  removes the code points `str.isspace()` accepts. `IsStripOf` is its defining
  property; `StripSpec` proves that `Strip` has it, and `StripUnique` that only
  one string does.
- `Store` models `data.json` as `Option<map<string, Record>>`, where `None` means
  the file does not exist. `Lookup` and `Save` are functions on it, and the
  lemmas state round-trip, last-write-wins, key isolation and a
  "trimmed and non-empty" store invariant.
- `Generator` holds the three character lists and the composition of the draws.
  It also has `random.shuffle` as CPython's in-place Fisher-Yates loop over an
  array, and `Generate`.
- `Manager` holds the class `PasswordManager`. Its fields are the data file and
  the three entry texts, and its methods are the three button handlers.

Randomness is an input:

- Each `choice` is an index into its list. The number of indices is the
  `randint` count.
- Each step `i` of the shuffle swaps with `draws[i] <= i`.

The confirmation dialog's answer is a boolean parameter. Error and info dialogs
become returned values.

Three details of the code:

- A search with an empty or whitespace-only website is rejected before the file
  is read (main.py:31-34).
- A failed lookup reports two different errors: no data file, or website not
  found (main.py:41-46).
- The website and password fields are cleared only when `data.json` already
  existed (main.py:115-122). A first save clears nothing. The email field is
  never cleared.

`Data` holds each entry as a `Record`. `EncodeRecord` and `DecodeRecord` are a
separate layer: they relate a `Record` to the JSON object
`{"email": ..., "password": ...}` that `save` writes (main.py:90-95) and
`get_details` reads back through `EMAIL_KEY` and `PASSWORD_KEY` (main.py:48-49).
`Lookup` and `Save` do not go through them.

## Model

| member | source | states |
|---|---|---|
| Text.TrimLeftSpec | main.py:87-89 | the left trim is a suffix of `s`, everything it removed is whitespace, and it does not start with whitespace |
| Text.TrimRightSpec | main.py:87-89 | the right trim is a prefix of `s`, everything it removed is whitespace, and it does not end with whitespace |
| Text.StripSpec | main.py:87-89 | the trimmed text is `s` with only whitespace removed at either end and no whitespace at its own ends; it is empty exactly when `s` is all whitespace |
| Text.StripUnpads | main.py:87-89 | the trimmed text neither starts nor ends with whitespace |
| Text.StripUnique | main.py:87-89 | at most one string has the strip property, so that property defines `strip()` completely |
| Text.StripIdempotent | main.py:30 | trimming a trimmed string changes nothing |
| Text.StripUnpadded | main.py:30 | a string with no whitespace at either end is unchanged by trimming |
| Store.EncodeRecord | main.py:90-95 | a record is written as an object with exactly the keys `email` and `password`, holding its two fields |
| Store.DecodeRecord | main.py:48-49 | reading the two keys back gives a record exactly when both keys are there |
| Store.DecodeEncode | main.py:14-15 | reading back a written record gives the same record (the two key constants differ) |
| Store.Lookup | main.py:22-50 | a website that is empty once trimmed is rejected, a missing file and a missing key are two distinct errors, otherwise the stored record under the trimmed name is returned |
| Store.LookupIgnoresPadding | main.py:30 | whitespace around the typed website does not change the lookup result |
| Store.Merge | main.py:108-118 | with no file the new contents hold exactly the one entry; otherwise the old keys plus the website, with the new record under it and every other record unchanged |
| Store.MergeTwice | main.py:116 | merging twice under one key equals merging only the second record |
| Store.Save | main.py:82-118 | empty fields, a declined confirmation, a first-file write and an update are told apart exactly; the first two leave the store (present or absent) unchanged; the writes merge the trimmed entry |
| Store.LookupAfterSave | main.py:87-118 | after a confirmed save, looking up the same website returns the trimmed email and password |
| Store.LastWriteWins | main.py:116 | a second confirmed save of the same website gives the same file as saving only the second record: the first record is replaced wholesale |
| Store.SaveIsolation | main.py:116 | on an existing file, saving one website leaves the lookup of every other (trimmed) name unchanged |
| Store.MergeKeepsNormalized | main.py:87-95 | merging a trimmed, non-empty entry keeps every key, email and password trimmed and non-empty |
| Store.SaveKeepsNormalized | main.py:87-118 | whatever its outcome, `save` keeps a store whose keys and fields are trimmed and non-empty in that form |
| Store.NormalizedKeysFound | main.py:30-49 | in such a store every saved website is found by typing its name |
| Store.SaveUnpadded | main.py:87-118 | a confirmed save of fields that need no trimming writes exactly those fields |
| Store.FirstSaveScenario | main.py:111-113 | the first save, with no data file, creates a file holding exactly `{"example.com": {"a@b.com", "Zz1!"}}` |
| Store.SecondSaveScenario | main.py:115-118 | saving a second website adds its entry and keeps the first intact |
| Generator.Pick | main.py:66-68 | one character per draw, each from the list it is drawn from |
| Generator.Compose | main.py:70 | the list before shuffling is as long as the three draws together |
| Generator.CountInPermutation | main.py:72 | a rearrangement of the characters keeps the number in every character class |
| Generator.AlphabetsDisjoint | main.py:60-64 | the letter, digit and symbol lists share no character |
| Generator.ComposeCounts | main.py:66-70 | the composed list has exactly as many letters, symbols and digits as were drawn for each |
| Generator.Shuffle | main.py:72 | the shuffle only rearranges the list: the multiset of elements is unchanged |
| Generator.Generate | main.py:54-74 | the password has 12 to 18 characters, the same characters as the composed list, only characters from the three lists, and exactly the drawn number of letters (8-10), symbols (2-4) and digits (2-4) |
| Manager.PasswordManager.constructor | main.py:153-163 | the window opens with the website and password fields empty and the email field holding `example@email.com` |
| Manager.PasswordManager.GetDetails | main.py:22-50 | the search result is the lookup of the website field in the current data file |
| Manager.PasswordManager.GeneratePassword | main.py:54-77 | the generated password replaces the password field; it is 12 to 18 characters long and a rearrangement of the drawn characters |
| Manager.PasswordManager.Save | main.py:82-122 | the data file becomes the result of `save` on the three fields; website and password fields are cleared only on the existing-file branch; the email field and the data file's other entries are untouched |

## Left out

- The Tkinter window, labels, buttons, canvas, image and layout (main.py:126-180): user interface only.
- The `messagebox` dialogs are returned values (`LookupError`, `SaveOutcome`, the found `Record`), and the confirmation dialog is the `confirmed` parameter. Their titles and wording are not modelled.
- `website_entry.focus()` after saving: user interface only.
- `pyperclip.copy`: a call into the system clipboard.
- JSON parsing and serialisation, the 4-space indent, and the file reads and writes: the file is an in-memory optional map that each operation reads and replaces whole.
- A `data.json` that exists but cannot be read or parsed: the source does not catch this error, so the button handler ends with an uncaught exception. `Data` cannot represent such a file.
- An entry that lacks the `email` or `password` key: `DecodeRecord` returns `None` for it, but `Lookup` works on `Record` values and never sees such an entry; in the source the handler ends with an uncaught exception (main.py:48-49).
- Concurrent writers to `data.json`: the program runs in one process on one thread.
- The distribution of `choice`, `randint` and `shuffle`: the draws are inputs limited to the ranges the source uses, and probability is not modelled.
- Generator.Shuffle: states that the result is a permutation of its input. It does not state which permutation a given list of draws produces.
