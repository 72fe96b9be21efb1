# Music player: playlist, session and transport model

This project models the playlist and session layer of a folder-based music player
(`src/App.tsx`) and the pure helpers and transport rules of its player
(`src/components/Player.tsx`), and proves properties of that model in Dafny.

- `js.dfy` (module `Js`): `undefined` as `Option`, the program's uses of `String(n)` and
  `Number(s)`, and `localStorage` as a `Storage` class holding one string map.
- `base64.dfy` (module `Base64`): base 64 as defined in section 4 of RFC 4648, with
  a decoder and the round trip. It stands in for the browser's `btoa`.
- `arith.dfy` (module `Arithmetic`): facts about remainders.
- `app.dfy` (module `App`): `askForDirectory`, `searchDirectory`, the `prev`/`next` cursor,
  the restore and persist rules, and a `Session` class. The class holds `musicEntries`,
  `currentMusic` and `currentDirectory`, plus the shared storage.
- `player.dfy` (module `Player`): `toReadable`, `uint8ArrayToBase64`, the cover
  classification, the cover panel's state, the key map, and a `Controls` class. `Controls`
  covers toggle, the volume and the track-end rule.

The current song is kept the way the source keeps it: as a `Song` value, not an index.
The session invariant (`App.Consistent`) has three parts:

- every song's `index` is its position;
- the current song is the catalog's song at its `index`;
- there is a current song exactly when the catalog is not empty.

The directory reader's entries are objects (`App.FileInfo`), so `indexOf` compares
identities. The reader returns a freshly deserialised array, so the entries are distinct.
That is why each built song's `index` equals its position.

Reactive re-computation is modelled as named steps that the caller runs in the order
React would. The steps are `Session.AdoptDirectory`, `Session.RestoreCurrent`,
`Session.BeforeUnload`, `Controls.OnMusicChanged` and `Controls.OnEnded`. Foreign calls
become parameters:

- `convertFileSrc` is a function argument;
- the reader's answer is `scan`. An unreadable directory is answered with no entries
  (`Some([])`), which empties the playlist. `None` stands only for a rejected `invoke`;
- the first `mp3_cover` event is `firstEvent`, with `None` when no event arrives.

Where the intended design of the player and its code differ, the model follows the code:

- the volume is not clamped (only the slider's range keeps it within 0..100);
- unloading without a directory removes `directory` and `index` but leaves `volume`;
- the cover handler takes the first event and never checks which song it was for;
- with no current song, the index is written as the text `undefined`, which reads back as
  no index;
- the seek slider has no handler, so there is no seek operation;
- an unreadable directory is not an error that leaves the session as it was. The reader
  answers with no entries, the catalog becomes empty and the current song becomes
  `musicEntries[0]`, which is no song.

## Model

| member | source | states |
|---|---|---|
| Js.NatToString | src/App.tsx:84 | `String(n)` of a whole number (exact below 2^53, which covers every index and volume the program writes) is a non-empty string of digits. It starts with `0` only for 0 and has one digit exactly when n < 10. |
| Js.ToNumber | src/App.tsx:102 | `Number(s)` is a whole number exactly when s is a non-empty string of digits, and NaN otherwise. |
| Js.DecimalValueOfNatToString | src/App.tsx:102 | Reading back the numeral `String(n)` gives n, for the exact whole numbers of the model. |
| Js.NumberRoundTrip | src/components/Player.tsx:189 | `Number(String(x)) == x` for every number the player writes, NaN included. |
| Js.IndexRoundTrip | src/App.tsx:84 | A stored index of 0 or more reads back as the index written. The text `undefined`, written when there is no current song, reads back as NaN. (Under the modelled `Number`, a negative index would also read as NaN. The program never writes one.) |
| Js.Storage.GetItem | src/App.tsx:116 | `getItem` gives a value exactly when the key is set, and that value is the stored one. |
| Js.Storage.SetItem | src/App.tsx:83-84 | `setItem` sets one key and leaves every other key as it was. |
| Js.Storage.RemoveItem | src/App.tsx:86-87 | `removeItem` removes one key and leaves every other key as it was. |
| Base64.SextetValue | src/components/Player.tsx:34 | Every character that has a 6-bit value is the alphabet character for that value. |
| Base64.Encode | src/components/Player.tsx:34 | The padded encoding has length 4·⌈n/3⌉. |
| Base64.DecodeEncode | src/components/Player.tsx:34 | Decoding the encoding of any bytes gives the same bytes back. |
| Base64.EncodeAlphabet | src/components/Player.tsx:34 | Every character of an encoding is in the base 64 alphabet or is the `=` pad. |
| Base64.Btoa | src/components/Player.tsx:34 | `btoa` succeeds exactly when every character's code is below 256. |
| App.AskForDirectory | src/App.tsx:20-30 | A directory comes back exactly when the picker returned one non-empty path, and it is that path. Cancelled, empty and multiple selections give none. |
| App.IndexOf | src/App.tsx:41 | `indexOf` is -1 exactly when the object is absent. Otherwise it is the first position that holds that object. |
| App.IndexOfDistinct | src/App.tsx:38-41 | Over distinct entry objects, `indexOf` of the entry at position i is i. |
| App.SearchDirectory | src/App.tsx:32-53 | One song per entry, in the reader's order. `path`, `name`, `artist` and `duration` are copied, `url` is `convertFileSrc(path)`, and `index` is `indexOf(entry)`. Over distinct entries, every index equals its position. |
| App.At | src/App.tsx:63 | `musicEntries[k]` is a song exactly when k is in range, and then it is the k-th song. |
| App.PrevSong | src/App.tsx:60-68 | `prev` does nothing without a current song. Any song it gives is from the catalog. With a song whose index is at most the catalog's length, and a non-empty catalog, it always gives a song. |
| App.NextSong | src/App.tsx:70-78 | `next` does nothing without a current song. Any song it gives is from the catalog. With a non-empty catalog and an index of −1 or more, it always gives a song. |
| App.NextPosition | src/App.tsx:70-78 | `next` moves from position k to position (k+1) mod n, so from the last song it goes to song 0. |
| App.PrevPosition | src/App.tsx:60-68 | `prev` moves from position k to position (k+n−1) mod n, so from song 0 it goes to the last song. |
| App.MovesKeepConsistent | src/App.tsx:60-78 | `prev` and `next` keep the current song consistent with the catalog. With no current song, both do nothing. |
| App.NextNAdd | src/App.tsx:70-78 | a+b applications of `next` equal a applications followed by b more. |
| App.NextNForward | src/App.tsx:70-78 | Before the end of the catalog, m applications of `next` move m songs forward. |
| App.NextCycle | src/App.tsx:70-78 | On a catalog of n songs, n applications of `next` return to the starting song. |
| App.PrevNextInverse | src/App.tsx:60-78 | `next` after `prev`, and `prev` after `next`, leave the current song unchanged. |
| App.SingleSongFixed | src/App.tsx:60-78 | With one song, `prev` and `next` both stay on it. |
| App.Lookup | src/App.tsx:102-103 | `musicEntries[Number(s)]` is a song exactly when the number is a whole number inside the catalog, and then it is the song at that position. |
| App.Restored | src/App.tsx:98-108 | The restored song exists exactly when the catalog is non-empty, and it is a song of the catalog. It differs from the first song only when `index` and `directory` are both stored, the stored directory is the current one, and the song is the one at the stored index. |
| App.RestoredConsistent | src/App.tsx:98-108 | Whatever is stored, restoring over a well-indexed catalog gives a consistent current song. It is absent only for an empty catalog. |
| App.RestoreFallsBackToFirst | src/App.tsx:98-108 | If the stored index is missing, is not a numeral or is out of range, or the stored directory is not the current one, restoring gives song 0. For an empty catalog it gives no song. |
| App.IndexText | src/App.tsx:84 | The text written for the index is never empty. It reads back as the current song's index when that index is 0 or more, and as NaN when there is no song. |
| App.Persisted | src/App.tsx:80-96 | After unload, `directory` and `index` are stored exactly when there is a non-empty current directory. The set of other keys is unchanged. |
| App.PersistedKeys | src/App.tsx:80-96 | With a non-empty directory, unload writes `directory` and `String(index)`. Without one, or with an empty one, it removes both keys. No other key (`volume` included) is touched. |
| App.PersistRestoreRoundTrip | src/App.tsx:80-108 | Persisting and then restoring with the same directory and catalog gives back the same current song. |
| App.Session.constructor | src/App.tsx:56-58 | The session starts with no songs, no current song and no directory, and it is consistent. |
| App.Session.Prev | src/App.tsx:60-68 | The new current song is `prev` of the old one, one position back with wraparound. The catalog and directory are unchanged and the invariant is kept. |
| App.Session.Next | src/App.tsx:70-78 | The new current song is `next` of the old one, one position forward with wraparound. The catalog and directory are unchanged and the invariant is kept. |
| App.Session.RestoreCurrent | src/App.tsx:98-108 | The current song becomes the restored song, read from storage, and the invariant holds. |
| App.Session.ChooseDirectory | src/App.tsx:129-135 | A picked directory replaces the current one. A cancelled or multiple selection changes nothing. |
| App.Session.AdoptDirectory | src/App.tsx:110-122 | With a directory, the reader's answer replaces the catalog with one built from the entries, then the restore step runs. An unreadable directory gives no entries, so the catalog becomes empty and there is no current song. Only a rejected `invoke` leaves everything unchanged. Without a directory, a non-empty stored `directory` is adopted. |
| App.Session.BeforeUnload | src/App.tsx:80-96 | Storage becomes the persisted map for the current directory and song. |
| Player.Pad | src/components/Player.tsx:17-23 | Padding ends with the original text and keeps digits digits. A one-character text gets exactly one `0` prepended, and any other text is left as it is. A numeral keeps its value. |
| Player.ToReadable | src/components/Player.tsx:13-26 | `toReadable(x)` is five characters: two digits, a colon, two digits. |
| Player.TwoDigitsValue | src/components/Player.tsx:17-23 | Two-digit padding of v < 100 is two digits whose value is v. |
| Player.PadTwoDigits | src/components/Player.tsx:17-23 | Padding `toFixed()` of v < 100 gives exactly its two decimal digits. |
| Player.HourRemainder | src/components/Player.tsx:14-15 | The cascade of remainders by a year, a day and an hour is the remainder by an hour. |
| Player.ToReadableFormat | src/components/Player.tsx:13-26 | `toReadable(x)` is two digits of (x mod 3600) div 60, then `:`, then two digits of x mod 60. It always has length 5. |
| Player.ToReadableDropsHours | src/components/Player.tsx:14-15 | `toReadable(x + 3600) == toReadable(x)`. |
| Player.ToReadableValue | src/components/Player.tsx:13-26 | Reading the display back as minutes·60 + seconds gives x mod 3600. |
| Player.ToUint8Array | src/components/Player.tsx:51 | `new Uint8Array(numbers)` keeps the length and reduces each number modulo 256. |
| Player.Uint8ArrayToBase64 | src/components/Player.tsx:28-35 | The binary string has one character per byte, each with the byte as its code. The result is the padded RFC 4648 encoding of the bytes: length 4·⌈n/3⌉, and it decodes back to the bytes. |
| Player.CoverOf | src/components/Player.tsx:44-56 | A payload resolves to a data URL exactly when it is a non-empty array. The URL's base 64 part decodes to the array's bytes. Every other payload resolves to `redmooncity`. |
| Player.ResolveCover | src/components/Player.tsx:44-56 | The method computes `CoverOf(payload)` by running `uint8ArrayToBase64` on the bytes. So the result is a data URL exactly when the payload is a non-empty array, its base 64 part decodes to the array's bytes, and anything else resolves to `redmooncity`. |
| Player.CoverView.constructor | src/components/Player.tsx:64 | The cover starts as `redmooncity`. |
| Player.CoverView.OnMusicChanged | src/components/Player.tsx:66-72 | No song sets the cover to `galaxy`. For a song, the first event's payload decides the cover, and with no event the cover stays as it was. |
| Player.Toggled | src/components/Player.tsx:96-104 | With an audio element, toggling flips the paused state. Without one, it keeps it. |
| Player.ToggleTwice | src/components/Player.tsx:96-104 | Toggling twice restores the paused state. |
| Player.ActionOf | src/components/Player.tsx:107-130 | Space, and only space, plays or pauses. ArrowUp and ArrowLeft, and only those, go back. ArrowDown and ArrowRight, and only those, go forward. |
| Player.InitialVolume | src/components/Player.tsx:167-169 | A missing or empty stored `volume` gives 50. A stored numeral gives its value, and any other text gives NaN. |
| Player.VolumeRoundTrip | src/components/Player.tsx:167-190 | The volume written at unload is the volume read at the next start, NaN included. |
| Player.Controls.constructor | src/components/Player.tsx:165-170 | Given a valid session, the new player is valid. The audio starts paused. The volume is the stored `volume` when that is non-empty, and 50 otherwise. |
| Player.Controls.Toggle | src/components/Player.tsx:96-104 | Plays when paused and pauses when playing. With no audio element it does nothing. |
| Player.Controls.OnMusicChanged | src/components/Player.tsx:172-179 | A song change starts playback when the audio element exists. |
| Player.Controls.OnEnded | src/components/Player.tsx:175-177 | A natural end of the track moves the session to `next`. The catalog and the directory are unchanged, and the session invariant is kept. |
| Player.Controls.HandleInput | src/components/Player.tsx:107-130 | Space toggles, ArrowUp and ArrowLeft call `prev`, and ArrowDown and ArrowRight call `next`. Default handling is suppressed for exactly these five keys, and any other key changes nothing. |
| Player.Controls.SetVolume | src/components/Player.tsx:153-155 | The slider's value, 0 to 100, becomes the volume. |
| Player.Controls.PersistVolume | src/components/Player.tsx:187-197 | Unload writes `String(volume)` under `volume` and touches no other key. |

## Left out

- Discord rich presence (`src-tauri/src/es.rs`, the IPC, thread and lock code in `src-tauri/src/main.rs`): concurrency and network plumbing outside the player's state.
- `read_directory` and `get_mp3_cover`: filesystem reads and tag libraries. The reader's answer is an arbitrary sequence of distinct `FileInfo` objects, or no answer.
- The `listen`/`invoke`/`unlisten` timing of the cover request: asynchronous callback plumbing. The handler also unregisters itself as soon as registration completes, which the model does not represent. The first event to arrive is a parameter.
- Stale cover responses: the source never compares an event with the requested path, so nothing is discarded. `CoverView.OnMusicChanged` applies whatever payload arrives first.
- The audio element: the `play()` promise, `src`, `onTimeUpdate`, `currentTime` and `volume = v / 100` are a foreign sink with floating-point values.
- Player.Controls.OnMusicChanged: `play()` is modelled as clearing `paused` at once. Its rejection (autoplay policy, no source) is not modelled.
- Player.Controls.OnEnded: the audio element's own paused state at the end of a track is not modelled. Neither is React skipping the play effect when `next` yields the same song object, as in a one-song catalog.
- Js.NatToString: numbers are modelled as exact natural numbers. JavaScript's exponent form from 1e21 up (`String(1e21)` is `1e+21`) and double rounding above 2^53 are not captured. The program's indices stay below the catalog length, and its volumes are 0 to 100.
- Js.ToNumber: `Number(s)` is modelled on numerals only. Whitespace, signs, fractions, exponents and hexadecimal read as NaN, where JavaScript reads a number. The program itself writes only numerals, `undefined` and `NaN`.
- `toReadable` on fractional seconds (`toFixed` rounding, which can show `60`): the model takes whole seconds.
- React rendering, effect and closure timing are not modelled. The `beforeunload` handler captures the directory as of the last change of the current song, and the model reads the current one. The key handler and the cover panel exist only while there is a current song. Setting the same directory again does not re-run the scan. `Home.tsx`, `PlaylistItem.tsx`, `Checkbox.tsx`, `main.tsx` and the markup are UI only.
- `convertFileSrc` (a Tauri call) is a function parameter. The `covers` assets are the two constants `RedMoonCity` and `Galaxy`.
