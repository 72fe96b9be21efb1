/** The playlist and session layer of the player (`src/App.tsx`): building the
    song catalog from the directory reader's entries, the current-song cursor
    with wraparound, and restoring and persisting the session in
    `localStorage`. */
module App {
  import opened Js
  import opened Arithmetic

  /** One entry of the directory reader's result.  Every entry is an object of
      its own, so `indexOf` finds an entry by identity. */
  class FileInfo {
    const duration: real
    const path: string
    const name: string
    const artist: string

    constructor (duration: real, path: string, name: string, artist: string)
      ensures this.duration == duration && this.path == path
      ensures this.name == name && this.artist == artist
    {
      this.duration := duration;
      this.path := path;
      this.name := name;
      this.artist := artist;
    }
  }

  /** A playable song: the entry's fields, the URL the audio element loads, and
      the position recorded for it when the catalog was built. */
  datatype Song = Song(index: int, duration: real, path: string, url: string, name: string, artist: string)

  /** What the folder picker hands back: nothing (cancelled), one path, or
      several paths. */
  datatype PickerResult = Cancelled | Single(path: string) | Multiple(paths: seq<string>)

  /** `askForDirectory`: a falsy answer (cancelled, or the empty path) and a
      multiple selection both give no directory; one path is returned as is. */
  function AskForDirectory(picked: PickerResult): (dir: Option<string>)
    ensures dir.Some? <==> picked.Single? && picked.path != ""
    ensures dir.Some? ==> dir.value == picked.path
  {
    if picked.Cancelled? || (picked.Single? && picked.path == "") then None
    else if picked.Multiple? then None
    else Some(picked.path)
  }

  /** `Array.prototype.indexOf`: the first position holding this very object, or -1. */
  function IndexOf(entries: seq<FileInfo>, x: FileInfo): (k: int)
    ensures -1 <= k < |entries|
    ensures k == -1 <==> x !in entries
    ensures k >= 0 ==> entries[k] == x && forall j :: 0 <= j < k ==> entries[j] != x
    decreases |entries|
  {
    if |entries| == 0 then -1
    else if entries[0] == x then 0
    else
      var k := IndexOf(entries[1..], x);
      if k == -1 then -1 else k + 1
  }

  /** No entry object occurs twice: the reader's result is freshly deserialised,
      one new object per entry. */
  predicate Distinct(entries: seq<FileInfo>) {
    forall i, j :: 0 <= i < j < |entries| ==> entries[i] != entries[j]
  }

  lemma IndexOfDistinct(entries: seq<FileInfo>, i: nat)
    requires Distinct(entries) && i < |entries|
    ensures IndexOf(entries, entries[i]) == i
  {
  }

  /** The song built for one entry. */
  function SongOf(info: FileInfo, index: int, convertFileSrc: string -> string): Song {
    Song(index, info.duration, info.path, convertFileSrc(info.path), info.name, info.artist)
  }

  /** `songs` holds one song per entry, in order, each carrying the entry's
      fields, its URL and the position `indexOf` finds for the entry. */
  predicate BuiltFrom(songs: seq<Song>, entries: seq<FileInfo>, convertFileSrc: string -> string) {
    && |songs| == |entries|
    && forall i :: 0 <= i < |entries| ==>
         songs[i] == SongOf(entries[i], IndexOf(entries, entries[i]), convertFileSrc)
  }

  /** Each song records its own position in the catalog. */
  predicate WellIndexed(songs: seq<Song>) {
    forall i :: 0 <= i < |songs| ==> songs[i].index == i
  }

  /** `searchDirectory`, after the reader has answered: one song per entry, in
      the reader's order; with distinct entries each song's index is its position.
      `convertFileSrc` is the platform's path-to-URL conversion. */
  method SearchDirectory(entries: seq<FileInfo>, convertFileSrc: string -> string) returns (songs: seq<Song>)
    ensures BuiltFrom(songs, entries, convertFileSrc)
    ensures forall i :: 0 <= i < |songs| ==>
      songs[i].path == entries[i].path && songs[i].url == convertFileSrc(entries[i].path)
    ensures Distinct(entries) ==> WellIndexed(songs)
  {
    songs := [];
    for i := 0 to |entries|
      invariant |songs| == i
      invariant forall j :: 0 <= j < i ==>
        songs[j] == SongOf(entries[j], IndexOf(entries, entries[j]), convertFileSrc)
    {
      var info := entries[i];
      var url := convertFileSrc(info.path);
      var song := Song(IndexOf(entries, info), info.duration, info.path, url, info.name, info.artist);
      songs := songs + [song];
    }
    if Distinct(entries) {
      forall i | 0 <= i < |songs|
        ensures songs[i].index == i
      {
        IndexOfDistinct(entries, i);
      }
    }
  }

  /** `musicEntries[k]`: `undefined` outside the array. */
  function At(entries: seq<Song>, k: int): (r: Option<Song>)
    ensures r.Some? <==> 0 <= k < |entries|
    ensures r.Some? ==> r.value == entries[k]
  {
    if 0 <= k < |entries| then Some(entries[k]) else None
  }

  /** `prev`: from the first song (index 0 or below) to the last one, otherwise
      one back; nothing happens without a current song. */
  function PrevSong(entries: seq<Song>, current: Option<Song>): (r: Option<Song>)
    ensures current.None? ==> r.None?
    ensures r.Some? ==> r.value in entries
    ensures current.Some? && 0 < |entries| && current.value.index <= |entries| ==> r.Some?
  {
    match current
    case None => None
    case Some(m) => if m.index <= 0 then At(entries, |entries| - 1) else At(entries, m.index - 1)
  }

  /** `next`: from the last song to the first one, otherwise one forward;
      nothing happens without a current song. */
  function NextSong(entries: seq<Song>, current: Option<Song>): (r: Option<Song>)
    ensures current.None? ==> r.None?
    ensures r.Some? ==> r.value in entries
    ensures current.Some? && 0 < |entries| && current.value.index >= -1 ==> r.Some?
  {
    match current
    case None => None
    case Some(m) => if m.index + 1 >= |entries| then At(entries, 0) else At(entries, m.index + 1)
  }

  /** The current song, when there is one, is the catalog's song at its index,
      and there is one exactly when the catalog is not empty. */
  predicate Consistent(entries: seq<Song>, current: Option<Song>) {
    && WellIndexed(entries)
    && (current.None? <==> |entries| == 0)
    && (current.Some? ==> 0 <= current.value.index < |entries| && entries[current.value.index] == current.value)
  }

  /** `next` moves from position k to position k + 1, wrapping around at the end. */
  lemma NextPosition(entries: seq<Song>, k: nat)
    requires WellIndexed(entries) && k < |entries|
    ensures NextSong(entries, Some(entries[k])) == Some(entries[(k + 1) % |entries|])
  {
    if k + 1 < |entries| {
      assert (k + 1) % |entries| == k + 1;
    } else {
      assert (k + 1) % |entries| == 0;
    }
  }

  /** `prev` moves from position k to position k - 1, wrapping around at the start. */
  lemma PrevPosition(entries: seq<Song>, k: nat)
    requires WellIndexed(entries) && k < |entries|
    ensures PrevSong(entries, Some(entries[k])) == Some(entries[(k + |entries| - 1) % |entries|])
  {
    if k == 0 {
      assert (|entries| - 1) % |entries| == |entries| - 1;
    } else {
      assert (k + |entries| - 1) % |entries| == k - 1;
    }
  }

  /** Both moves keep the cursor consistent with the catalog; on an empty
      catalog they leave the (absent) current song absent. */
  lemma MovesKeepConsistent(entries: seq<Song>, current: Option<Song>)
    requires Consistent(entries, current)
    ensures Consistent(entries, NextSong(entries, current))
    ensures Consistent(entries, PrevSong(entries, current))
  {
    if current.Some? {
      NextPosition(entries, current.value.index);
      PrevPosition(entries, current.value.index);
    }
  }

  /** `next` applied m times. */
  function NextN(entries: seq<Song>, current: Option<Song>, m: nat): Option<Song>
    decreases m
  {
    if m == 0 then current else NextSong(entries, NextN(entries, current, m - 1))
  }

  lemma {:induction false} NextNAdd(entries: seq<Song>, current: Option<Song>, a: nat, b: nat)
    ensures NextN(entries, current, a + b) == NextN(entries, NextN(entries, current, a), b)
    decreases b
  {
    if b > 0 {
      NextNAdd(entries, current, a, b - 1);
    }
  }

  /** Short of the end, m applications of `next` move m songs forward. */
  lemma {:induction false} NextNForward(entries: seq<Song>, k: nat, m: nat)
    requires WellIndexed(entries) && k + m < |entries|
    ensures NextN(entries, Some(entries[k]), m) == Some(entries[k + m])
    decreases m
  {
    if m > 0 {
      NextNForward(entries, k, m - 1);
      NextPosition(entries, k + m - 1);
      assert (k + m) % |entries| == k + m;
    }
  }

  /** With n songs, n applications of `next` come back to the starting song. */
  lemma NextCycle(entries: seq<Song>, current: Option<Song>)
    requires Consistent(entries, current)
    ensures NextN(entries, current, |entries|) == current
  {
    if current.Some? {
      var k, n := current.value.index, |entries|;
      NextNForward(entries, k, n - 1 - k);
      NextPosition(entries, n - 1);
      assert n % n == 0;
      assert NextN(entries, current, n - k) == Some(entries[0]);
      NextNAdd(entries, current, n - k, k);
      if k > 0 {
        NextNForward(entries, 0, k);
      }
    } else {
      assert |entries| == 0;
    }
  }

  /** `prev` and `next` undo each other. */
  lemma PrevNextInverse(entries: seq<Song>, current: Option<Song>)
    requires Consistent(entries, current)
    ensures NextSong(entries, PrevSong(entries, current)) == current
    ensures PrevSong(entries, NextSong(entries, current)) == current
  {
    if current.Some? {
      var k, n := current.value.index, |entries|;
      PrevPosition(entries, k);
      NextPosition(entries, (k + n - 1) % n);
      NextPosition(entries, k);
      PrevPosition(entries, (k + 1) % n);
      ModSucc(k + n - 1, n);
      assert (k + n) % n == k;
      if k + 1 < n {
        assert (k + 1) % n == k + 1;
      } else {
        assert (k + 1) % n == 0;
      }
    }
  }

  /** With a single song both moves stay on it. */
  lemma SingleSongFixed(entries: seq<Song>, current: Option<Song>)
    requires Consistent(entries, current) && |entries| == 1
    ensures NextSong(entries, current) == current && PrevSong(entries, current) == current
  {
    NextPosition(entries, 0);
    PrevPosition(entries, 0);
  }

  /** `musicEntries[Number(s)]` for the stored text s. */
  function Lookup(entries: seq<Song>, x: Number): (r: Option<Song>)
    ensures r.Some? <==> x.Whole? && x.n < |entries|
    ensures r.Some? ==> r.value == entries[x.n]
  {
    match x
    case Whole(n) => At(entries, n)
    case NaN => None
  }

  /** The restore step run whenever the catalog changes: the stored index is
      used when the `index` key holds a non-empty value, the stored `directory`
      equals the current directory (an unset current directory never equals
      anything stored) and a song exists at that index; otherwise the first
      song, which is absent for an empty catalog. */
  function Restored(entries: seq<Song>, directory: Option<string>, stored: map<string, string>): (r: Option<Song>)
    ensures r.Some? <==> |entries| != 0
    ensures r.Some? ==> r.value in entries
    ensures r != At(entries, 0) ==>
      && "index" in stored && "directory" in stored && directory == Some(stored["directory"])
      && r == Lookup(entries, ToNumber(stored["index"]))
  {
    if && "index" in stored && stored["index"] != ""
       && directory.Some? && "directory" in stored && directory.value == stored["directory"]
       && Lookup(entries, ToNumber(stored["index"])).Some?
    then Lookup(entries, ToNumber(stored["index"]))
    else At(entries, 0)
  }

  /** Whatever is stored, restoring leaves the cursor consistent with a
      well-indexed catalog: a song of the catalog, absent only when it is empty. */
  lemma RestoredConsistent(entries: seq<Song>, directory: Option<string>, stored: map<string, string>)
    requires WellIndexed(entries)
    ensures Consistent(entries, Restored(entries, directory, stored))
  {
  }

  /** A stored index that is missing, not a numeral, or beyond the catalog, or
      a stored directory other than the current one, restores the first song. */
  lemma RestoreFallsBackToFirst(entries: seq<Song>, directory: Option<string>, stored: map<string, string>)
    requires || "index" !in stored
             || directory.None? || "directory" !in stored || stored["directory"] != directory.value
             || ToNumber(stored["index"]).NaN? || ToNumber(stored["index"]).n >= |entries|
    ensures Restored(entries, directory, stored) == if |entries| == 0 then None else Some(entries[0])
  {
  }

  /** The text written for the current song's index: `String(currentMusic?.index)`. */
  function IndexText(current: Option<Song>): (s: string)
    ensures s != ""
    ensures current.Some? && current.value.index >= 0 ==> ToNumber(s) == Whole(current.value.index)
    ensures !(current.Some? && current.value.index >= 0) ==> ToNumber(s).NaN?
  {
    IndexRoundTrip(if current.Some? then current.value.index else 0);
    match current
    case None => "undefined"
    case Some(m) => IntToString(m.index)
  }

  /** The `beforeunload` handler's effect on storage: with a current directory
      it writes `directory` and `index`, otherwise it removes both. */
  function Persisted(stored: map<string, string>, directory: Option<string>, current: Option<Song>): (r: map<string, string>)
    ensures "directory" in r <==> directory.Some? && directory.value != ""
    ensures "index" in r <==> directory.Some? && directory.value != ""
    ensures r.Keys - {"directory", "index"} == stored.Keys - {"directory", "index"}
  {
    if directory.Some? && directory.value != "" then
      stored["directory" := directory.value]["index" := IndexText(current)]
    else
      stored - {"directory", "index"}
  }

  /** Persisting touches only the `directory` and `index` keys (so `volume` is
      kept), and without a directory neither key is left behind. */
  lemma PersistedKeys(stored: map<string, string>, directory: Option<string>, current: Option<Song>)
    ensures forall key :: key != "directory" && key != "index" ==>
      (key in Persisted(stored, directory, current) <==> key in stored) &&
      (key in stored ==> Persisted(stored, directory, current)[key] == stored[key])
    ensures directory.Some? && directory.value != "" ==>
      && Persisted(stored, directory, current)["directory"] == directory.value
      && Persisted(stored, directory, current)["index"] == IndexText(current)
    ensures !(directory.Some? && directory.value != "") ==>
      "directory" !in Persisted(stored, directory, current) && "index" !in Persisted(stored, directory, current)
  {
  }

  /** Persisting and then restoring with the same directory and catalog gives
      back the same current song (the first one when there was none, which is
      none again for an empty catalog). */
  lemma PersistRestoreRoundTrip(entries: seq<Song>, directory: Option<string>, current: Option<Song>, stored: map<string, string>)
    requires Consistent(entries, current)
    requires directory.Some? && directory.value != ""
    ensures Restored(entries, directory, Persisted(stored, directory, current)) == current
  {
    var p := Persisted(stored, directory, current);
    IndexRoundTrip(if current.Some? then current.value.index else 0);
    match current
    case Some(m) =>
      assert p["index"] == IntToString(m.index);
      assert p["index"] != "";
    case None =>
      assert p["index"] == "undefined";
  }

  /** The session state of `App`: the catalog, the current song and the
      current directory, with `localStorage` shared with the player. */
  class Session {
    var musicEntries: seq<Song>
    var currentMusic: Option<Song>
    var currentDirectory: Option<string>
    const storage: Storage

    ghost predicate Valid()
      reads this
    {
      && Consistent(musicEntries, currentMusic)
      && (currentDirectory.Some? ==> currentDirectory.value != "")
    }

    /** The initial state: no catalog, no song, no directory. */
    constructor (storage: Storage)
      ensures Valid() && this.storage == storage
      ensures musicEntries == [] && currentMusic == None && currentDirectory == None
    {
      musicEntries := [];
      currentMusic := None;
      currentDirectory := None;
      this.storage := storage;
    }

    method Prev()
      requires Valid()
      modifies this
      ensures Valid()
      ensures currentMusic == PrevSong(old(musicEntries), old(currentMusic))
      ensures old(currentMusic).Some? ==>
        currentMusic == Some(musicEntries[(old(currentMusic).value.index + |musicEntries| - 1) % |musicEntries|])
      ensures musicEntries == old(musicEntries) && currentDirectory == old(currentDirectory)
    {
      MovesKeepConsistent(musicEntries, currentMusic);
      if currentMusic.Some? {
        PrevPosition(musicEntries, currentMusic.value.index);
        if currentMusic.value.index <= 0 {
          currentMusic := At(musicEntries, |musicEntries| - 1);
        } else {
          currentMusic := At(musicEntries, currentMusic.value.index - 1);
        }
      }
    }

    method Next()
      requires Valid()
      modifies this
      ensures Valid()
      ensures currentMusic == NextSong(old(musicEntries), old(currentMusic))
      ensures old(currentMusic).Some? ==>
        currentMusic == Some(musicEntries[(old(currentMusic).value.index + 1) % |musicEntries|])
      ensures musicEntries == old(musicEntries) && currentDirectory == old(currentDirectory)
    {
      MovesKeepConsistent(musicEntries, currentMusic);
      if currentMusic.Some? {
        NextPosition(musicEntries, currentMusic.value.index);
        if currentMusic.value.index + 1 >= |musicEntries| {
          currentMusic := At(musicEntries, 0);
        } else {
          currentMusic := At(musicEntries, currentMusic.value.index + 1);
        }
      }
    }

    /** The restore step, run when the catalog has been replaced. */
    method RestoreCurrent()
      requires WellIndexed(musicEntries)
      requires currentDirectory.Some? ==> currentDirectory.value != ""
      modifies this
      ensures Valid()
      ensures currentMusic == Restored(musicEntries, currentDirectory, storage.items)
      ensures musicEntries == old(musicEntries) && currentDirectory == old(currentDirectory)
    {
      RestoredConsistent(musicEntries, currentDirectory, storage.items);
      var stored := storage.GetItem("index");
      var directory := storage.GetItem("directory");
      if && stored.Some? && stored.value != ""
         && currentDirectory.Some? && directory.Some? && currentDirectory.value == directory.value
         && Lookup(musicEntries, ToNumber(stored.value)).Some?
      {
        currentMusic := Lookup(musicEntries, ToNumber(stored.value));
      } else {
        currentMusic := At(musicEntries, 0);
      }
    }

    /** The `getDirectory` callback: adopt the picked directory, if any. */
    method ChooseDirectory(picked: PickerResult)
      requires Valid()
      modifies this
      ensures Valid()
      ensures currentDirectory == if AskForDirectory(picked).Some? then AskForDirectory(picked) else old(currentDirectory)
      ensures musicEntries == old(musicEntries) && currentMusic == old(currentMusic)
    {
      var dir := AskForDirectory(picked);
      if dir.Some? {
        currentDirectory := dir;
      }
    }

    /** The step run when the current directory changes.  With a directory, the
        reader's answer `scan` replaces the catalog, and the restore step
        follows.  An unreadable directory is answered with no entries, which
        empties the catalog; `None` is a rejected `invoke`, after which the
        step stops and nothing changes.
        Without one, a non-empty stored `directory` becomes the current one. */
    method AdoptDirectory(scan: Option<seq<FileInfo>>, convertFileSrc: string -> string)
      requires Valid()
      requires scan.Some? ==> Distinct(scan.value)
      modifies this
      ensures Valid()
      ensures old(currentDirectory).Some? ==> currentDirectory == old(currentDirectory)
      ensures old(currentDirectory).Some? && scan.Some? ==>
        && BuiltFrom(musicEntries, scan.value, convertFileSrc)
        && currentMusic == Restored(musicEntries, currentDirectory, storage.items)
      ensures old(currentDirectory).Some? && scan.None? ==>
        musicEntries == old(musicEntries) && currentMusic == old(currentMusic)
      ensures old(currentDirectory).None? ==>
        && musicEntries == old(musicEntries) && currentMusic == old(currentMusic)
        && currentDirectory == (if "directory" in storage.items && storage.items["directory"] != ""
                                then Some(storage.items["directory"]) else None)
    {
      if currentDirectory.Some? && currentDirectory.value != "" {
        if scan.Some? {
          var songs := SearchDirectory(scan.value, convertFileSrc);
          musicEntries := songs;
          RestoreCurrent();
        }
      } else {
        var dir := storage.GetItem("directory");
        if dir.Some? && dir.value != "" {
          currentDirectory := dir;
        }
      }
    }

    /** The `beforeunload` handler. */
    method BeforeUnload()
      requires Valid()
      modifies storage
      ensures storage.items == Persisted(old(storage.items), currentDirectory, currentMusic)
    {
      if currentDirectory.Some? && currentDirectory.value != "" {
        storage.SetItem("directory", currentDirectory.value);
        storage.SetItem("index", IndexText(currentMusic));
      } else {
        storage.RemoveItem("directory");
        storage.RemoveItem("index");
      }
    }
  }
}
