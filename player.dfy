/** The player (`src/components/Player.tsx`): the time display, the cover
    image shown for the current song, the keyboard bindings, play/pause, the
    volume kept across sessions and the advance to the next song when one ends. */
module Player {
  import opened Js
  import opened Arithmetic
  import opened Base64
  import opened App

  /** `toFixed()` of a whole number, padded to two digits when it has one. */
  function Pad(s: string): (r: string)
    ensures |r| >= |s| && r[|r| - |s|..] == s
    ensures |s| >= 1 ==> |r| >= 2
    ensures |s| != 1 ==> r == s
    ensures AllDigits(s) ==> AllDigits(r)
    ensures |s| == 1 ==> |r| == 2 && r[0] == '0'
    ensures AllDigits(s) ==> DecimalValue(r) == DecimalValue(s)
  {
    if |s| == 1 then
      assert ("0" + s)[..1] == "0" && s[..0] == [];
      "0" + s
    else s
  }

  /** `toReadable` for a whole number of seconds: minutes and seconds after
      dropping years, days and hours. */
  function ToReadable(x: nat): (r: string)
    ensures |r| == 5 && r[2] == ':'
    ensures AllDigits(r[..2]) && AllDigits(r[3..])
  {
    var m := (((x % 31536000) % 86400) % 3600) / 60;
    var s := (((x % 31536000) % 86400) % 3600) % 60;
    PadTwoDigits(m);
    PadTwoDigits(s);
    ClockShape(TwoDigits(m), TwoDigits(s));
    Pad(NatToString(m)) + ":" + Pad(NatToString(s))
  }

  /** Two two-digit fields around a colon make a five-character clock face. */
  lemma ClockShape(minutes: string, seconds: string)
    requires |minutes| == 2 && |seconds| == 2 && AllDigits(minutes) && AllDigits(seconds)
    ensures |minutes + ":" + seconds| == 5 && (minutes + ":" + seconds)[2] == ':'
    ensures (minutes + ":" + seconds)[..2] == minutes && (minutes + ":" + seconds)[3..] == seconds
  {
  }

  /** The two decimal digits of a number below 100. */
  function TwoDigits(v: nat): (s: string)
    requires v < 100
    ensures |s| == 2 && AllDigits(s)
  {
    [DigitChar(v / 10), DigitChar(v % 10)]
  }

  lemma TwoDigitsValue(v: nat)
    requires v < 100
    ensures AllDigits(TwoDigits(v)) && DecimalValue(TwoDigits(v)) == v
  {
    var t, first := TwoDigits(v), [DigitChar(v / 10)];
    assert t[..|t| - 1] == first;
    assert DecimalValue(first) == v / 10 by {
      assert first[..0] == [];
    }
    assert DecimalValue(t) == (v / 10) * 10 + v % 10;
  }

  lemma PadTwoDigits(v: nat)
    requires v < 100
    ensures Pad(NatToString(v)) == TwoDigits(v)
  {
    if v >= 10 {
      assert NatToString(v) == NatToString(v / 10) + [DigitChar(v % 10)];
    }
  }

  /** A year and a day are whole numbers of hours, so the cascade of remainders
      is the remainder by an hour. */
  lemma HourRemainder(x: nat)
    ensures ((x % 31536000) % 86400) % 3600 == x % 3600
    ensures (x % 3600) % 60 == x % 60
  {
    var q1, r1 := x / 31536000, x % 31536000;
    var q2, r2 := r1 / 86400, r1 % 86400;
    var q3, r3 := r2 / 3600, r2 % 3600;
    assert x == 3600 * (8760 * q1 + 24 * q2 + q3) + r3;
    ModUnique(x, 8760 * q1 + 24 * q2 + q3, r3, 3600);
    var m, s := (x % 3600) / 60, (x % 3600) % 60;
    assert x == 60 * (60 * (x / 3600) + m) + s;
    ModUnique(x, 60 * (x / 3600) + m, s, 60);
  }

  /** The display is always five characters: two digits of minutes within the
      hour, a colon, two digits of seconds. */
  lemma ToReadableFormat(x: nat)
    ensures ToReadable(x) == TwoDigits((x % 3600) / 60) + ":" + TwoDigits(x % 60)
    ensures |ToReadable(x)| == 5 && ToReadable(x)[2] == ':'
  {
    HourRemainder(x);
    PadTwoDigits((x % 3600) / 60);
    PadTwoDigits(x % 60);
  }

  /** Hours are dropped: one hour more shows the same. */
  lemma ToReadableDropsHours(x: nat)
    ensures ToReadable(x + 3600) == ToReadable(x)
  {
    ToReadableFormat(x);
    ToReadableFormat(x + 3600);
    ModUnique(x + 3600, x / 3600 + 1, x % 3600, 3600);
  }

  /** Reading the display back as minutes and seconds gives the time within
      the hour. */
  lemma ToReadableValue(x: nat)
    ensures AllDigits(ToReadable(x)[..2]) && AllDigits(ToReadable(x)[3..])
    ensures DecimalValue(ToReadable(x)[..2]) * 60 + DecimalValue(ToReadable(x)[3..]) == x % 3600
  {
    ToReadableFormat(x);
    var m, s := (x % 3600) / 60, x % 60;
    ClockShape(TwoDigits(m), TwoDigits(s));
    TwoDigitsValue(m);
    TwoDigitsValue(s);
    MinutesAndSeconds(x);
  }

  /** The minutes within the hour and the seconds within the minute make up
      the time within the hour. */
  lemma MinutesAndSeconds(x: nat)
    ensures ((x % 3600) / 60) * 60 + x % 60 == x % 3600
  {
    HourRemainder(x);
  }

  /** `new Uint8Array(numbers)`: each number reduced modulo 256. */
  function ToUint8Array(values: seq<int>): (b: seq<byte>)
    ensures |b| == |values|
    ensures forall i :: 0 <= i < |values| ==> b[i] == values[i] % 256
  {
    seq(|values|, i requires 0 <= i < |values| => values[i] % 256)
  }

  /** `uint8ArrayToBase64`: one character per byte, with the byte as its code,
      handed to `btoa`; the result is the padded base 64 encoding of the bytes. */
  method Uint8ArrayToBase64(data: seq<byte>) returns (r: string)
    ensures r == Encode(data)
    ensures |r| == 4 * ((|data| + 2) / 3)
    ensures Decode(r) == Some(data)
  {
    var binary := "";
    for i := 0 to |data|
      invariant |binary| == i
      invariant forall j :: 0 <= j < i ==> binary[j] as int == data[j]
    {
      binary := binary + [data[i] as char];
    }
    var encoded := Btoa(binary);
    assert seq(|binary|, i requires 0 <= i < |binary| => binary[i] as int) == data;
    r := encoded.value;
    DecodeEncode(data);
  }

  /** The payload of an `mp3_cover` event: absent, something other than an
      array, or an array of numbers. */
  datatype Payload = Missing | NotArray | Numbers(values: seq<int>)

  /** The image shown as the cover: one of the two bundled pictures, or a data
      URL built from the song's embedded cover. */
  datatype Cover = RedMoonCity | Galaxy | DataUrl(url: string)

  const DataUrlPrefix: string := "data:content-type;base64,"

  /** The cover a payload resolves to. */
  ghost function CoverOf(payload: Payload): (cover: Cover)
    ensures cover.DataUrl? <==> payload.Numbers? && |payload.values| != 0
    ensures cover.DataUrl? ==>
      && |cover.url| >= |DataUrlPrefix|
      && cover.url[..|DataUrlPrefix|] == DataUrlPrefix
      && Decode(cover.url[|DataUrlPrefix|..]) == Some(ToUint8Array(payload.values))
    ensures !cover.DataUrl? ==> cover == RedMoonCity
  {
    DecodeEncode(if payload.Numbers? then ToUint8Array(payload.values) else []);
    assert payload.Numbers? ==>
      (DataUrlPrefix + Encode(ToUint8Array(payload.values)))[|DataUrlPrefix|..] == Encode(ToUint8Array(payload.values));
    if payload.Numbers? && |payload.values| != 0
    then DataUrl(DataUrlPrefix + Encode(ToUint8Array(payload.values)))
    else RedMoonCity
  }

  /** The classification inside `getAlbumCover`'s event handler: a non-empty
      array becomes a data URL whose base 64 part decodes to the array's bytes;
      anything else becomes the `redmooncity` placeholder. */
  method ResolveCover(payload: Payload) returns (cover: Cover)
    ensures cover == CoverOf(payload)
  {
    if payload.Numbers? && |payload.values| != 0 {
      var base64 := Uint8ArrayToBase64(ToUint8Array(payload.values));
      cover := DataUrl(DataUrlPrefix + base64);
      assert cover.url[|DataUrlPrefix|..] == base64;
    } else {
      cover := RedMoonCity;
    }
  }

  /** The cover state of the song information panel. */
  class CoverView {
    var albumCover: Cover

    constructor ()
      ensures albumCover == RedMoonCity
    {
      albumCover := RedMoonCity;
    }

    /** The step run when the song changes.  No song shows `galaxy`.  For a
        song, the cover is requested and the first `mp3_cover` event to arrive
        decides it (`None`: no event arrives, and the cover stays as it was). */
    method OnMusicChanged(music: Option<Song>, firstEvent: Option<Payload>)
      modifies this
      ensures music.None? ==> albumCover == Galaxy
      ensures music.Some? && firstEvent.None? ==> albumCover == old(albumCover)
      ensures music.Some? && firstEvent.Some? ==> albumCover == CoverOf(firstEvent.value)
    {
      if music.Some? {
        if firstEvent.Some? {
          albumCover := ResolveCover(firstEvent.value);
        }
      } else {
        albumCover := Galaxy;
      }
    }
  }

  /** What a key press does. */
  datatype KeyAction = PlayPause | GoPrev | GoNext | Ignored

  function ActionOf(key: string): (a: KeyAction)
    ensures a == PlayPause <==> key == " "
    ensures a == GoPrev <==> key == "ArrowUp" || key == "ArrowLeft"
    ensures a == GoNext <==> key == "ArrowDown" || key == "ArrowRight"
  {
    match key
    case " " => PlayPause
    case "ArrowUp" => GoPrev
    case "ArrowDown" => GoNext
    case "ArrowLeft" => GoPrev
    case "ArrowRight" => GoNext
    case _ => Ignored
  }

  /** The paused state after a toggle: with an audio element, play when paused
      and pause when playing; without one, nothing changes. */
  function Toggled(audioMounted: bool, paused: bool): (r: bool)
    ensures audioMounted ==> r != paused
    ensures !audioMounted ==> r == paused
  {
    if audioMounted then !paused else paused
  }

  lemma ToggleTwice(audioMounted: bool, paused: bool)
    ensures Toggled(audioMounted, Toggled(audioMounted, paused)) == paused
  {
  }

  /** The stored volume read at start: the `volume` key's number when it holds
      a non-empty value, otherwise 50. */
  function InitialVolume(stored: map<string, string>): (v: Number)
    ensures "volume" !in stored || stored["volume"] == "" ==> v == Whole(50)
    ensures "volume" in stored && AllDigits(stored["volume"]) && stored["volume"] != "" ==>
      v == Whole(DecimalValue(stored["volume"]))
    ensures "volume" in stored && stored["volume"] != "" && !AllDigits(stored["volume"]) ==> v == NaN
  {
    if "volume" in stored && stored["volume"] != "" then ToNumber(stored["volume"]) else Whole(50)
  }

  /** A volume written at unload is the volume read at the next start. */
  lemma VolumeRoundTrip(stored: map<string, string>, v: Number)
    ensures InitialVolume(stored["volume" := NumberToString(v)]) == v
  {
    NumberRoundTrip(v);
    assert NumberToString(v) != "";
  }

  /** The transport state of the player: whether its audio element exists,
      whether it is paused, and the volume; the playlist is the session's. */
  class Controls {
    const session: Session
    var audioMounted: bool
    var paused: bool
    var volume: Number

    ghost predicate Valid()
      reads this, session
    {
      session.Valid()
    }

    /** A new player: a new audio element is paused, and the volume is the stored one. */
    constructor (session: Session, audioMounted: bool)
      requires session.Valid()
      ensures Valid()
      ensures this.session == session && this.audioMounted == audioMounted
      ensures paused
      ensures volume == InitialVolume(session.storage.items)
    {
      this.session := session;
      this.audioMounted := audioMounted;
      paused := true;
      var stored := session.storage.GetItem("volume");
      volume := if stored.Some? && stored.value != "" then ToNumber(stored.value) else Whole(50);
    }

    /** `toggle`. */
    method Toggle()
      modifies this
      ensures paused == Toggled(old(audioMounted), old(paused))
      ensures audioMounted == old(audioMounted) && volume == old(volume)
    {
      if audioMounted {
        if paused {
          paused := false;
        } else {
          paused := true;
        }
      }
    }

    /** The step run when the song changes: playback starts, and a natural
        end of the song will call `next`. */
    method OnMusicChanged()
      modifies this
      ensures paused == (if old(audioMounted) then false else old(paused))
      ensures audioMounted == old(audioMounted) && volume == old(volume)
    {
      if audioMounted {
        paused := false;
      }
    }

    /** `onended`: a natural end of the song moves to the next one. */
    method OnEnded()
      requires Valid()
      modifies session
      ensures Valid()
      ensures session.currentMusic == NextSong(old(session.musicEntries), old(session.currentMusic))
      ensures session.musicEntries == old(session.musicEntries)
      ensures session.currentDirectory == old(session.currentDirectory)
    {
      session.Next();
    }

    /** `handleInput`: space toggles, up and left go back, down and right go
        forward; exactly these five keys have their default suppressed
        (`prevented`), and any other key changes nothing. */
    method HandleInput(key: string) returns (prevented: bool)
      requires Valid()
      modifies this, session
      ensures Valid()
      ensures prevented <==> ActionOf(key) != Ignored
      ensures audioMounted == old(audioMounted) && volume == old(volume)
      ensures session.musicEntries == old(session.musicEntries)
      ensures session.currentDirectory == old(session.currentDirectory)
      ensures paused == if ActionOf(key) == PlayPause then Toggled(old(audioMounted), old(paused)) else old(paused)
      ensures session.currentMusic == match ActionOf(key)
        case GoPrev => PrevSong(old(session.musicEntries), old(session.currentMusic))
        case GoNext => NextSong(old(session.musicEntries), old(session.currentMusic))
        case _ => old(session.currentMusic)
    {
      prevented := false;
      if key == " " {
        Toggle();
        prevented := true;
      } else if key == "ArrowUp" {
        session.Prev();
        prevented := true;
      } else if key == "ArrowDown" {
        session.Next();
        prevented := true;
      } else if key == "ArrowLeft" {
        session.Prev();
        prevented := true;
      } else if key == "ArrowRight" {
        session.Next();
        prevented := true;
      }
    }

    /** The volume slider's input: a whole number from 0 to 100. */
    method SetVolume(v: nat)
      requires v <= 100
      modifies this
      ensures volume == Whole(v)
      ensures paused == old(paused) && audioMounted == old(audioMounted)
    {
      volume := Whole(v);
    }

    /** The player's `beforeunload` handler: the volume is written as text
        under `volume`, and no other key is touched. */
    method PersistVolume()
      modifies session.storage
      ensures session.storage.items == old(session.storage.items)["volume" := NumberToString(volume)]
    {
      session.storage.SetItem("volume", NumberToString(volume));
    }
  }
}
