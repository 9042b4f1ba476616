/**
 `FixStringCreator` and `FixStringParser`: objects that hold the fields of one message and write or
 read its text.
 */
module FixMessage {
  import opened Strings
  import opened FixText

  class FixStringCreator {
    var fields: Fields

    constructor ()
      ensures fields == map[]
    {
      fields := map[];
    }

    method Reset()
      modifies this
      ensures fields == map[]
    {
      fields := map[];
    }

    method InsertField(key: string, val: string)
      modifies this
      ensures fields == old(fields)[key := val]
    {
      fields := fields[key := val];
    }

    method GetIfSet(key: string) returns (found: bool, output: string)
      ensures found <==> key in fields
      ensures found ==> output == fields[key]
      ensures !found ==> output == ""
    {
      found, output := key in fields, "";
      if found {
        output := fields[key];
      }
    }

    /** Appends one field, if it is set. */
    method UpdateString(output: string, key: string) returns (longer: string)
      ensures longer == output + PrintedIfSet(fields, key)
    {
      longer := output;
      var found, val := GetIfSet(key);
      if found {
        longer := longer + (key + "=" + val + [SOH]);
      }
    }

    /** Appends the listed fields that are set, one after the other. */
    method UpdateStrings(output: string, tags: seq<string>) returns (out: string)
      ensures out == output + Printed(fields, tags)
    {
      out := output;
      var i := 0;
      while i < |tags|
        invariant 0 <= i <= |tags|
        invariant out == output + Printed(fields, tags[..i])
      {
        out := UpdateString(out, tags[i]);
        assert tags[..i + 1][..i] == tags[..i];
        i := i + 1;
      }
      assert tags[..i] == tags;
    }

    /** Appends the whole message. Read back from an empty output it gives these fields exactly when
        no printed value contains SOH or NUL. */
    method GetOmsString(output: string) returns (out: string)
      modifies this
      ensures fields == OmsFields(old(fields))
      ensures out == output + OmsString(old(fields))
      ensures output == "" ==>
        (Parsed(out) == Restricted(fields, OMS_TAGS + [CHECKSUM_TAG]) <==> AllClean(old(fields), OMS_TAGS))
    {
      out := UpdateStrings(output, OMS_TAGS);
      InsertField(CHECKSUM_TAG, CHECKSUM);
      out := UpdateString(out, CHECKSUM_TAG);
      RoundTrip(old(fields));
      assert output == "" ==> out == OmsString(old(fields));
    }
  }

  class FixStringParser {
    var fields: Fields

    constructor ()
      ensures fields == map[]
    {
      fields := map[];
    }

    method Reset()
      modifies this
      ensures fields == map[]
    {
      fields := map[];
    }

    /** Forgets the last message and reads a new one, segment by segment. */
    method LoadString(input: string)
      modifies this
      ensures fields == Parsed(input)
    {
      Reset();
      var text := UpToNul(input);
      ghost var done: seq<string> := [];
      var i := 0;
      while i < |text|
        invariant 0 <= i <= |text| && fields == Assign(done)
        invariant Segments(text, 0) == done + Segments(text, i)
      {
        var j := Find(text, SOH, i);
        var s := text[i..j];
        var pos := Find(s, '=', 0);
        var key := s[..pos];
        var value := if pos == |s| then s else s[pos + 1..];
        NextField(text, i, done, s);
        fields := fields[key := value];
        done := done + [s];
        i := if j == |text| then j else j + 1;
      }
      assert done == Segments(text, 0);
    }

    method GetIfSet(key: string) returns (found: bool, output: string)
      ensures found <==> key in fields
      ensures found ==> output == fields[key]
    {
      found, output := key in fields, "";
      if found {
        output := fields[key];
      }
    }
  }
}
