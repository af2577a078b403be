/**
 The Color Command Translator: `handleColor` in main.go maps a color name, and
 for `custom` an RGB triple of strings, to at most one MQTT publication of a
 `set/<R>/<G>/<B>` command on the topic `cmd/backlight1`.
 */
module Translator {
  import opened Wrappers
  import opened GoStrings

  /** The one topic every command is published to. */
  const Topic: string := "cmd/backlight1"

  /** One call of `publish(client, topic, message)`. */
  datatype Publication = Publication(topic: string, payload: string)

  /** The case labels of handleColor's switch; there is no default case. */
  const Colors: set<string> := {"red", "green", "blue", "purple", "off", "custom"}

  /** The channel levels of the five fixed colors, as the switch writes them. */
  const FixedLevels: map<string, seq<string>> := map[
    "red" := ["1020", "0", "0"],
    "green" := ["0", "1020", "0"],
    "blue" := ["0", "0", "1020"],
    "purple" := ["1000", "0", "800"],
    "off" := ["0", "0", "0"]
  ]

  /**
   What the `custom` case needs of its caller: it reads `rgb[0]`, `rgb[1]`
   and `rgb[2]`, so the slice must hold at least three parts. Every other
   color ignores `rgb`.
   */
  predicate RgbInBounds(color: string, rgb: seq<string>)
  {
    color == "custom" ==> |rgb| >= 3
  }

  /** handleColor's switch: the command for `color`, or None when no case matches. */
  function Command(color: string, rgb: seq<string>): (cmd: Option<string>)
    requires RgbInBounds(color, rgb)
    ensures cmd.Some? <==> color in Colors
  {
    match color
    case "red" => Some("set/1020/0/0")
    case "green" => Some("set/0/1020/0")
    case "blue" => Some("set/0/0/1020")
    case "purple" => Some("set/1000/0/800")
    case "off" => Some("set/0/0/0")
    case "custom" => Some("set/" + rgb[0] + "/" + rgb[1] + "/" + rgb[2])
    case _ => None
  }

  /**
   Reference definition of the three channel fields of a recognized color:
   the fixed table, or the first three supplied strings verbatim for `custom`.
   */
  function Levels(color: string, rgb: seq<string>): (levels: seq<string>)
    requires color in Colors && RgbInBounds(color, rgb)
    ensures |levels| == 3
  {
    if color == "custom" then rgb[..3] else FixedLevels[color]
  }

  /** The publications handleColor makes: at most one, always on `Topic`. */
  function ColorPublishes(color: string, rgb: seq<string>): (ps: seq<Publication>)
    requires RgbInBounds(color, rgb)
    ensures |ps| <= 1
    ensures |ps| == 1 <==> color in Colors
    ensures forall i :: 0 <= i < |ps| ==> ps[i].topic == Topic
  {
    match Command(color, rgb)
    case Some(m) => [Publication(Topic, m)]
    case None => []
  }

  /** The switch agrees with the table: every command is "set" and the three levels joined by '/'. */
  lemma CommandMatchesTable(color: string, rgb: seq<string>)
    requires color in Colors && RgbInBounds(color, rgb)
    ensures Command(color, rgb) == Some(Join(["set"] + Levels(color, rgb), '/'))
  {
    var levels := Levels(color, rgb);
    assert ["set"] + levels == ["set", levels[0], levels[1], levels[2]];
    JoinFour("set", levels[0], levels[1], levels[2], '/');
    var joined := "set" + "/" + levels[0] + "/" + levels[1] + "/" + levels[2];
    if color == "custom" {
      assert levels == [rgb[0], rgb[1], rgb[2]];
      assert "set" + "/" == "set/";
      assert joined == "set/" + rgb[0] + "/" + rgb[1] + "/" + rgb[2];
    } else if color == "red" {
      assert levels == ["1020", "0", "0"];
      assert joined == "set/1020/0/0";
    } else if color == "green" {
      assert levels == ["0", "1020", "0"];
      assert joined == "set/0/1020/0";
    } else if color == "blue" {
      assert levels == ["0", "0", "1020"];
      assert joined == "set/0/0/1020";
    } else if color == "purple" {
      assert levels == ["1000", "0", "800"];
      assert joined == "set/1000/0/800";
    } else {
      assert levels == ["0", "0", "0"];
      assert joined == "set/0/0/0";
    }
  }

  /**
   Read back by the device, a command splits on '/' into "set" and the three
   levels, provided no level contains '/' (the fixed ones never do).
   */
  lemma CommandFields(color: string, rgb: seq<string>)
    requires color in Colors && RgbInBounds(color, rgb)
    requires NoSeparator(Levels(color, rgb), '/')
    ensures Command(color, rgb).Some?
    ensures Split(Command(color, rgb).value, '/') == ["set"] + Levels(color, rgb)
  {
    CommandMatchesTable(color, rgb);
    SplitJoin(["set"] + Levels(color, rgb), '/');
  }

  /** Each fixed color publishes exactly its fixed string, whatever `rgb` holds. */
  lemma FixedColorsPublishFixedStrings(rgb: seq<string>)
    ensures ColorPublishes("red", rgb) == [Publication(Topic, "set/1020/0/0")]
    ensures ColorPublishes("green", rgb) == [Publication(Topic, "set/0/1020/0")]
    ensures ColorPublishes("blue", rgb) == [Publication(Topic, "set/0/0/1020")]
    ensures ColorPublishes("purple", rgb) == [Publication(Topic, "set/1000/0/800")]
    ensures ColorPublishes("off", rgb) == [Publication(Topic, "set/0/0/0")]
  {
  }

  /** `custom` formats the first three parts verbatim; parts beyond the third are ignored. */
  lemma CustomIsVerbatim(rgb: seq<string>)
    requires |rgb| >= 3
    ensures ColorPublishes("custom", rgb) == [Publication(Topic, "set/" + rgb[0] + "/" + rgb[1] + "/" + rgb[2])]
    ensures ColorPublishes("custom", rgb) == ColorPublishes("custom", rgb[..3])
  {
  }

  /**
   There is no numeric or range check on the custom parts: any strings are
   accepted, and a part holding '/' yields a command with more than four fields.
   */
  lemma CustomPartsNotValidated()
    ensures ColorPublishes("custom", ["abc", "", "-7"]) == [Publication(Topic, "set/abc//-7")]
    ensures |Split(Command("custom", ["1/2", "3", "4"]).value, '/')| == 5
  {
    assert "set/" + "abc" + "/" + "" + "/" + "-7" == "set/abc//-7";
    var fields := ["set", "1", "2", "3", "4"];
    JoinFour("1", "2", "3", "4", '/');
    assert fields[1..] == ["1", "2", "3", "4"];
    assert Command("custom", ["1/2", "3", "4"]).value == Join(fields, '/');
    SplitJoin(fields, '/');
  }
}
