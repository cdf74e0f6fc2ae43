/**
 * The parse-once caches behind a rule evaluation. Each getter fills its cache in place; its
 * contract says the caller sees what a direct parse of the raw JSON would give, on every call.
 */
module LazyCache {
  import opened Values

  /** Lazily parsed forms of one raw value, one "attempted" flag per form. */
  class ParsedEntry {
    const lib: Lib
    const raw: Raw
    var str: Decoded<string>
    var strAttempted: bool
    var strs: Decoded<seq<string>>
    var strsAttempted: bool
    var num: Decoded<int>
    var numAttempted: bool
    var nums: Decoded<seq<int>>
    var numsAttempted: bool
    var flag: Decoded<bool>
    var flagAttempted: bool
    var date: Decoded<int>
    var dateAttempted: bool
    var dateBounds: Decoded<(int, int)>
    var dateBoundsAttempted: bool

    /** A form that was attempted holds the outcome of parsing the raw value. */
    ghost predicate Valid()
      reads this
    {
      && (strAttempted ==> str == DecodeString(raw))
      && (strsAttempted ==> strs == DecodeStrings(raw))
      && (numAttempted ==> num == DecodeNumber(raw))
      && (numsAttempted ==> nums == DecodeNumbers(raw))
      && (flagAttempted ==> flag == DecodeBool(raw))
      && (dateAttempted ==> date == DecodeDate(lib, raw))
      && (dateBoundsAttempted ==> dateBounds == DecodeDateBounds(lib, raw))
    }

    constructor (lib: Lib, raw: Raw)
      ensures Valid() && this.lib == lib && this.raw == raw
    {
      this.lib, this.raw := lib, raw;
      str, strAttempted := Decoded("", false), false;
      strs, strsAttempted := Decoded([], false), false;
      num, numAttempted := Decoded(0, false), false;
      nums, numsAttempted := Decoded([], false), false;
      flag, flagAttempted := Decoded(false, false), false;
      date, dateAttempted := Decoded(0, false), false;
      dateBounds, dateBoundsAttempted := Decoded((0, 0), false), false;
    }

    method GetStr() returns (r: Decoded<string>)
      requires Valid()
      modifies this
      ensures Valid() && r == DecodeString(raw)
    {
      if !strAttempted {
        strAttempted := true;
        str := DecodeString(raw);
      }
      r := str;
    }

    method GetStrSlice() returns (r: Decoded<seq<string>>)
      requires Valid()
      modifies this
      ensures Valid() && r == DecodeStrings(raw)
    {
      if !strsAttempted {
        strsAttempted := true;
        strs := DecodeStrings(raw);
      }
      r := strs;
    }

    method GetNum() returns (r: Decoded<int>)
      requires Valid()
      modifies this
      ensures Valid() && r == DecodeNumber(raw)
    {
      if !numAttempted {
        numAttempted := true;
        num := DecodeNumber(raw);
      }
      r := num;
    }

    method GetNumSlice() returns (r: Decoded<seq<int>>)
      requires Valid()
      modifies this
      ensures Valid() && r == DecodeNumbers(raw)
    {
      if !numsAttempted {
        numsAttempted := true;
        nums := DecodeNumbers(raw);
      }
      r := nums;
    }

    method GetBool() returns (r: Decoded<bool>)
      requires Valid()
      modifies this
      ensures Valid() && r == DecodeBool(raw)
    {
      if !flagAttempted {
        flagAttempted := true;
        flag := DecodeBool(raw);
      }
      r := flag;
    }

    method GetDate() returns (r: Decoded<int>)
      requires Valid()
      modifies this
      ensures Valid() && r == DecodeDate(lib, raw)
    {
      if !dateAttempted {
        dateAttempted := true;
        date := Decoded(0, false);
        var s := DecodeString(raw);
        if s.ok {
          var t := lib.parseDate(s.value);
          if t.Some? {
            date := Decoded(t.value, true);
          }
        }
      }
      r := date;
    }

    method GetDateBounds() returns (r: Decoded<(int, int)>)
      requires Valid()
      modifies this
      ensures Valid() && r == DecodeDateBounds(lib, raw)
    {
      if !dateBoundsAttempted {
        var found := Decoded((0, 0), false);
        var bounds := DecodeStrings(raw);
        if bounds.ok && |bounds.value| == 2 {
          var lo, hi := lib.parseDate(bounds.value[0]), lib.parseDate(bounds.value[1]);
          if lo.Some? && hi.Some? {
            found := Decoded((lo.value, hi.value), true);
          }
        }
        assert found == DecodeDateBounds(lib, raw);
        dateBounds, dateBoundsAttempted := found, true;
      }
      r := dateBounds;
    }
  }

  /** ParsedUserAttrs and ParsedExpectedValues: raw values plus a cache filled on demand. */
  class ParsedValues {
    const lib: Lib
    const raw: map<string, Raw>
    var cache: map<string, ParsedEntry>
    ghost var Repr: set<object>

    ghost predicate Valid()
      reads this, Repr
    {
      && this in Repr
      && forall k | k in cache ::
           && k in raw && cache[k] in Repr
           && cache[k].raw == raw[k] && cache[k].lib == lib && cache[k].Valid()
    }

    constructor (lib: Lib, raw: map<string, Raw>)
      ensures Valid() && fresh(Repr) && this.lib == lib && this.raw == raw
    {
      this.lib, this.raw := lib, raw;
      cache := map[];
      Repr := {this};
    }

    /** The cached entry for `attr`, created on first use; null when the attribute is absent. */
    method Entry(attr: string) returns (pv: ParsedEntry?)
      requires Valid()
      modifies this
      ensures Valid() && fresh(Repr - old(Repr))
      ensures pv == null <==> attr !in raw
      ensures pv != null ==>
        attr in cache && cache[attr] == pv
    {
      if attr in cache {
        pv := cache[attr];
      } else if attr in raw {
        pv := new ParsedEntry(lib, raw[attr]);
        cache := cache[attr := pv];
        Repr := Repr + {pv};
      } else {
        pv := null;
      }
    }

    method GetString(attr: string) returns (r: Decoded<string>)
      requires Valid()
      modifies Repr
      ensures Valid() && fresh(Repr - old(Repr))
      ensures r == DecodeString(RawOf(raw, attr))
    {
      var pv := Entry(attr);
      if pv == null {
        r := Decoded("", false);
      } else {
        r := pv.GetStr();
      }
    }

    method GetStringSlice(attr: string) returns (r: Decoded<seq<string>>)
      requires Valid()
      modifies Repr
      ensures Valid() && fresh(Repr - old(Repr))
      ensures r == DecodeStrings(RawOf(raw, attr))
    {
      var pv := Entry(attr);
      if pv == null {
        r := Decoded([], false);
      } else {
        r := pv.GetStrSlice();
      }
    }

    method GetNumber(attr: string) returns (r: Decoded<int>)
      requires Valid()
      modifies Repr
      ensures Valid() && fresh(Repr - old(Repr))
      ensures r == DecodeNumber(RawOf(raw, attr))
    {
      var pv := Entry(attr);
      if pv == null {
        r := Decoded(0, false);
      } else {
        r := pv.GetNum();
      }
    }

    method GetNumberSlice(attr: string) returns (r: Decoded<seq<int>>)
      requires Valid()
      modifies Repr
      ensures Valid() && fresh(Repr - old(Repr))
      ensures r == DecodeNumbers(RawOf(raw, attr))
    {
      var pv := Entry(attr);
      if pv == null {
        r := Decoded([], false);
      } else {
        r := pv.GetNumSlice();
      }
    }

    method GetBool(attr: string) returns (r: Decoded<bool>)
      requires Valid()
      modifies Repr
      ensures Valid() && fresh(Repr - old(Repr))
      ensures r == DecodeBool(RawOf(raw, attr))
    {
      var pv := Entry(attr);
      if pv == null {
        r := Decoded(false, false);
      } else {
        r := pv.GetBool();
      }
    }

    method GetDate(attr: string) returns (r: Decoded<int>)
      requires Valid()
      modifies Repr
      ensures Valid() && fresh(Repr - old(Repr))
      ensures r == DecodeDate(lib, RawOf(raw, attr))
    {
      var pv := Entry(attr);
      if pv == null {
        r := Decoded(0, false);
      } else {
        r := pv.GetDate();
      }
    }

    method GetDateBounds(attr: string) returns (r: Decoded<(int, int)>)
      requires Valid()
      modifies Repr
      ensures Valid() && fresh(Repr - old(Repr))
      ensures r == DecodeDateBounds(lib, RawOf(raw, attr))
    {
      var pv := Entry(attr);
      if pv == null {
        r := Decoded((0, 0), false);
      } else {
        r := pv.GetDateBounds();
      }
    }
  }

  /** What an evaluation may write: the two caches, or only one when the user map is nil. */
  ghost function Footprint(expected: ParsedValues, user: ParsedValues?): set<object>
    reads expected, user
  {
    expected.Repr + if user == null then {} else user.Repr
  }

  /** The two caches of one evaluation are sound and share no state. */
  ghost predicate Ready(expected: ParsedValues, user: ParsedValues?)
    reads expected, user, Footprint(expected, user)
  {
    && expected.Valid()
    && (user != null ==> user.Valid() && user.lib == expected.lib && expected.Repr !! user.Repr)
  }
}
