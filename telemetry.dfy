/**
 * The per-file decision procedure of `parse_wasetup_xml`: records from the
 * embedded telemetry JSON when it yields any, otherwise from the phase
 * elements of the XML tree; then the companion-log record, and a `NO_DATA` or
 * `ERROR` record so that a file never yields nothing.
 */
module Telemetry {
  import opened Options
  import opened Text
  import opened Dicts
  import opened Xml
  import opened Records
  import opened Seqs

  /** The value of one key of the telemetry object: an object of fields, or some other JSON value. */
  datatype SectionData = Object(fields: map<string, Value>) | NonObject(typeName: string)

  /** The WaSetup file as the XML parser sees it: a tree, or the message it failed with. */
  datatype XmlDoc = Parsed(root: Element) | Malformed(message: string)

  /** The keys of the telemetry object that name a phase, with the phase name each stands for. */
  const JsonSectionNames: map<string, string> := map[
    "specialize" := "specialize",
    "oobeSystem" := "oobeSystem",
    "oobesystem" := "oobeSystem",
    "SetupCl" := "SetupCl",
    "setupcl" := "SetupCl",
    "WinDeploy" := "WinDeploy",
    "windeploy" := "WinDeploy",
    "Setup" := "Setup",
    "setup" := "Setup",
    "OobeLdr" := "OobeLdr",
    "oobeldr" := "OobeLdr",
    "provisioning" := "provisioning",
    "PaSetup" := "PaSetup",
    "pasetup" := "PaSetup"
  ]

  /** `section_data.get(name)`: a missing field reads as null. */
  function Field(fields: map<string, Value>, name: string): Value
  {
    if name in fields then fields[name] else Null
  }

  /** The message of the failure raised by calling `.get` on a value that is not an object. */
  function NoGetMessage(typeName: string): string
  {
    "'" + typeName + "' object has no attribute 'get'"
  }

  /**
   * The record built from one phase object of the telemetry JSON: its
   * `StartTime`, `EndTime` and `TickCount` fields, a missing one read as null.
   */
  function JsonRecord(machine: string, section: string, fields: map<string, Value>,
                      parseTime: string -> Option<int>, parseTick: string -> Option<int>): (r: Record)
    ensures r.machine == machine && r.section == section && WellFormed(r)
    ensures r.startRaw == Field(fields, "StartTime") && r.endRaw == Field(fields, "EndTime")
    ensures r.durationMs.Some? <==>
              ParseIso(Field(fields, "StartTime"), parseTime).Some? && ParseIso(Field(fields, "EndTime"), parseTime).Some?
    ensures r.durationMs.Some? ==>
              r.durationMs.value == ParseIso(Field(fields, "EndTime"), parseTime).value
                                    - ParseIso(Field(fields, "StartTime"), parseTime).value
    ensures r.tickMs == ParseTick(Field(fields, "TickCount"), parseTick)
  {
    BuildRecord(machine, section, Field(fields, "StartTime"), Field(fields, "EndTime"), Field(fields, "TickCount"),
                parseTime, parseTick)
  }

  /** Where the walk over the telemetry keys stands: the records so far, and the failure that ended it, if any. */
  datatype Scan = Scan(records: seq<Record>, failure: Option<string>)

  /** Every key of `keys` has a value. */
  predicate AllIn(keys: seq<string>, entries: map<string, SectionData>)
  {
    forall i :: 0 <= i < |keys| ==> keys[i] in entries
  }

  /**
   * The JSON branch walking `keys` in order: keys outside the table are
   * skipped, a phase object gives a record, and a phase value that is not an
   * object ends the walk with the failure its `.get` raises.
   */
  function JsonScan(machine: string, keys: seq<string>, entries: map<string, SectionData>,
                    parseTime: string -> Option<int>, parseTick: string -> Option<int>): (s: Scan)
    requires AllIn(keys, entries)
    ensures forall i :: 0 <= i < |s.records| ==>
              && s.records[i].machine == machine && WellFormed(s.records[i])
              && s.records[i].section in JsonSectionNames.Values
    decreases |keys|
  {
    if keys == [] then Scan([], None)
    else
      JsonStep(machine, JsonScan(machine, keys[..|keys| - 1], entries, parseTime, parseTick), keys[|keys| - 1],
               entries, parseTime, parseTick)
  }

  /**
   * How the JSON branch takes one more key `k` after the scan `prev`: a failed
   * scan and a key outside the table change nothing; otherwise the records so
   * far are kept and either one record named by the table is added, or the
   * scan fails on a value that is not an object.
   */
  function JsonStep(machine: string, prev: Scan, k: string, entries: map<string, SectionData>,
                    parseTime: string -> Option<int>, parseTick: string -> Option<int>): (s: Scan)
    requires k in entries
    ensures prev.failure.Some? || k !in JsonSectionNames ==> s == prev
    ensures prev.failure.None? && k in JsonSectionNames ==>
              && (s.failure.Some? <==> entries[k].NonObject?)
              && (s.failure.Some? ==> s.records == prev.records && s.failure.value == NoGetMessage(entries[k].typeName))
              && (s.failure.None? ==> |s.records| == |prev.records| + 1 && s.records[..|prev.records|] == prev.records
                                      && s.records[|prev.records|].section == JsonSectionNames[k]
                                      && s.records[|prev.records|].machine == machine)
  {
    if prev.failure.Some? || k !in JsonSectionNames then prev
    else match entries[k]
      case NonObject(t) => Scan(prev.records, Some(NoGetMessage(t)))
      case Object(fields) =>
        Scan(prev.records + [JsonRecord(machine, JsonSectionNames[k], fields, parseTime, parseTick)], None)
  }

  /** One step of `JsonScan` along a key list, as the loop of `ScanTelemetry` takes it. */
  lemma JsonScanStep(machine: string, keys: seq<string>, entries: map<string, SectionData>,
                     parseTime: string -> Option<int>, parseTick: string -> Option<int>, i: nat)
    requires AllIn(keys, entries) && i < |keys|
    ensures AllIn(keys[..i], entries) && AllIn(keys[..i + 1], entries)
    ensures JsonScan(machine, keys[..i + 1], entries, parseTime, parseTick) ==
            JsonStep(machine, JsonScan(machine, keys[..i], entries, parseTime, parseTick), keys[i], entries, parseTime, parseTick)
  {
    PrefixStep(keys, i);
  }

  /** The phase names the keys of `keys` stand for, in order, skipping keys outside the table. */
  function MappedNames(keys: seq<string>): (names: seq<string>)
    ensures |names| <= |keys|
    decreases |keys|
  {
    if keys == [] then []
    else
      var k := keys[|keys| - 1];
      MappedNames(keys[..|keys| - 1]) + (if k in JsonSectionNames then [JsonSectionNames[k]] else [])
  }

  /** The phase names of a list of records. */
  function SectionsOf(rs: seq<Record>): (names: seq<string>)
    ensures |names| == |rs| && forall i :: 0 <= i < |rs| ==> names[i] == rs[i].section
  {
    seq(|rs|, i requires 0 <= i < |rs| => rs[i].section)
  }

  /**
   * The records a walk over `keys` yields when it does not fail: for each key
   * of the table, in key order, the record built from that key's own object
   * under the name the table gives it.
   */
  function MappedRecords(machine: string, keys: seq<string>, entries: map<string, SectionData>,
                         parseTime: string -> Option<int>, parseTick: string -> Option<int>): seq<Record>
    requires AllIn(keys, entries)
    decreases |keys|
  {
    if keys == [] then []
    else
      var k := keys[|keys| - 1];
      assert AllIn(keys[..|keys| - 1], entries);
      MappedRecords(machine, keys[..|keys| - 1], entries, parseTime, parseTick)
      + (if k in JsonSectionNames && entries[k].Object?
         then [JsonRecord(machine, JsonSectionNames[k], entries[k].fields, parseTime, parseTick)]
         else [])
  }

  /** A walk that does not fail yields exactly `MappedRecords`: each record from its own key's fields. */
  lemma {:induction false} JsonScanRecords(machine: string, keys: seq<string>, entries: map<string, SectionData>,
                                           parseTime: string -> Option<int>, parseTick: string -> Option<int>)
    requires AllIn(keys, entries)
    requires JsonScan(machine, keys, entries, parseTime, parseTick).failure.None?
    ensures JsonScan(machine, keys, entries, parseTime, parseTick).records
            == MappedRecords(machine, keys, entries, parseTime, parseTick)
    decreases |keys|
  {
    if keys != [] {
      var prefix := keys[..|keys| - 1];
      assert AllIn(prefix, entries);
      JsonScanRecords(machine, prefix, entries, parseTime, parseTick);
    }
  }

  /**
   * A walk that does not fail yields one record per key found in the table,
   * named by the table and in key order; every other key is dropped.
   */
  lemma {:induction false} JsonScanSections(machine: string, keys: seq<string>, entries: map<string, SectionData>,
                                            parseTime: string -> Option<int>, parseTick: string -> Option<int>)
    requires AllIn(keys, entries)
    requires JsonScan(machine, keys, entries, parseTime, parseTick).failure.None?
    ensures SectionsOf(JsonScan(machine, keys, entries, parseTime, parseTick).records) == MappedNames(keys)
    decreases |keys|
  {
    if keys != [] {
      var prefix := keys[..|keys| - 1];
      assert AllIn(prefix, entries);
      JsonScanSections(machine, prefix, entries, parseTime, parseTick);
    }
  }

  /**
   * A walk fails only at a key of the table whose value is not an object,
   * and the failure is the message that `.get` on that value raises.
   */
  lemma {:induction false} JsonScanFailure(machine: string, keys: seq<string>, entries: map<string, SectionData>,
                                           parseTime: string -> Option<int>, parseTick: string -> Option<int>)
    requires AllIn(keys, entries)
    requires JsonScan(machine, keys, entries, parseTime, parseTick).failure.Some?
    ensures exists i :: 0 <= i < |keys| && keys[i] in JsonSectionNames && entries[keys[i]].NonObject?
                        && JsonScan(machine, keys, entries, parseTime, parseTick).failure
                           == Some(NoGetMessage(entries[keys[i]].typeName))
    decreases |keys|
  {
    var prefix := keys[..|keys| - 1];
    assert AllIn(prefix, entries);
    if JsonScan(machine, prefix, entries, parseTime, parseTick).failure.Some? {
      JsonScanFailure(machine, prefix, entries, parseTime, parseTick);
      var i :| 0 <= i < |prefix| && prefix[i] in JsonSectionNames && entries[prefix[i]].NonObject?
               && JsonScan(machine, prefix, entries, parseTime, parseTick).failure
                  == Some(NoGetMessage(entries[prefix[i]].typeName));
      assert keys[i] == prefix[i];
    } else {
      assert keys[|keys| - 1] in JsonSectionNames;
    }
  }

  /** A walk fails exactly when some key of the table has a value that is not an object. */
  lemma {:induction false} JsonScanFailsIff(machine: string, keys: seq<string>, entries: map<string, SectionData>,
                                            parseTime: string -> Option<int>, parseTick: string -> Option<int>)
    requires AllIn(keys, entries)
    ensures JsonScan(machine, keys, entries, parseTime, parseTick).failure.Some? <==>
            exists i :: 0 <= i < |keys| && keys[i] in JsonSectionNames && entries[keys[i]].NonObject?
    decreases |keys|
  {
    if keys != [] {
      var prefix := keys[..|keys| - 1];
      assert AllIn(prefix, entries);
      JsonScanFailsIff(machine, prefix, entries, parseTime, parseTick);
      if exists i :: 0 <= i < |prefix| && prefix[i] in JsonSectionNames && entries[prefix[i]].NonObject? {
        var i :| 0 <= i < |prefix| && prefix[i] in JsonSectionNames && entries[prefix[i]].NonObject?;
        assert keys[i] == prefix[i];
      } else {
        forall i | 0 <= i < |prefix| ensures !(keys[i] in JsonSectionNames && entries[keys[i]].NonObject?) {
          assert keys[i] == prefix[i];
        }
      }
    }
  }

  /**
   * The first key of the table whose value is not an object decides the
   * failure: the walk ends with the message of that value, keeping exactly
   * the records of the keys before it.
   */
  lemma JsonScanFirstFailure(machine: string, keys: seq<string>, entries: map<string, SectionData>,
                             parseTime: string -> Option<int>, parseTick: string -> Option<int>, n: nat)
    requires AllIn(keys, entries) && n < |keys|
    requires keys[n] in JsonSectionNames && entries[keys[n]].NonObject?
    requires forall i :: 0 <= i < n && keys[i] in JsonSectionNames ==> entries[keys[i]].Object?
    ensures AllIn(keys[..n], entries)
    ensures JsonScan(machine, keys, entries, parseTime, parseTick).failure == Some(NoGetMessage(entries[keys[n]].typeName))
    ensures JsonScan(machine, keys, entries, parseTime, parseTick).records
            == MappedRecords(machine, keys[..n], entries, parseTime, parseTick)
  {
    var prefix := keys[..n];
    assert AllIn(prefix, entries);
    forall i | 0 <= i < |prefix| ensures !(prefix[i] in JsonSectionNames && entries[prefix[i]].NonObject?) {
      assert prefix[i] == keys[i];
    }
    JsonScanFailsIff(machine, prefix, entries, parseTime, parseTick);
    JsonScanRecords(machine, prefix, entries, parseTime, parseTick);
    JsonScanStep(machine, keys, entries, parseTime, parseTick, n);
    JsonScanSticky(machine, keys, entries, parseTime, parseTick, n + 1);
  }

  /** Once the walk has failed, the keys after the failing one change nothing. */
  lemma {:induction false} JsonScanSticky(machine: string, keys: seq<string>, entries: map<string, SectionData>,
                                          parseTime: string -> Option<int>, parseTick: string -> Option<int>, n: nat)
    requires AllIn(keys, entries) && n <= |keys|
    requires JsonScan(machine, keys[..n], entries, parseTime, parseTick).failure.Some?
    ensures JsonScan(machine, keys, entries, parseTime, parseTick)
            == JsonScan(machine, keys[..n], entries, parseTime, parseTick)
    decreases |keys| - n
  {
    if n < |keys| {
      var prefix := keys[..|keys| - 1];
      assert prefix[..n] == keys[..n];
      JsonScanSticky(machine, prefix, entries, parseTime, parseTick, n);
    } else {
      assert keys[..n] == keys;
    }
  }

  /**
   * The phase name a lower-cased tag stands for on the XML path: four names
   * have fixed spellings and every other one is capitalised. Either way the
   * tag is only recased: the name has its length and, ignoring case, reads
   * as the tag.
   */
  function XmlSectionName(n: string): (r: string)
    ensures |r| == |n|
    ensures Lower(n) == n ==> Lower(r) == n
  {
    if n == "oobesystem" then "oobeSystem"
    else if n == "setupcl" then "SetupCl"
    else if n == "windeploy" then "WinDeploy"
    else if n == "oobeldr" then "OobeLdr"
    else
      CapitalizeRecases(n);
      Capitalize(n)
  }

  /** The XML path capitalises every tag that has no fixed spelling. */
  lemma XmlSectionNameCapitalises(n: string)
    requires n !in {"oobesystem", "setupcl", "windeploy", "oobeldr"}
    ensures XmlSectionName(n) == Capitalize(n)
  {
  }

  // The four lemmas below prove `CapitalisedTags` one small step at a time:
  // each literal is split into its first letter and its tail, the tail is
  // shown lower-case, and `CapitalizeLowerTail` does the rest. Comparing the
  // whole literals in one proof is much costlier for the solver.

  /** The tails of the four capitalised tags are already lower-case. */
  lemma CapitalisedTagTails()
    ensures Lower("pecialize") == "pecialize" && Lower("etup") == "etup"
    ensures Lower("rovisioning") == "rovisioning" && Lower("asetup") == "asetup"
  {
    LowerNoUpper("pecialize");
    LowerNoUpper("etup");
    LowerNoUpper("rovisioning");
    LowerNoUpper("asetup");
  }

  /** The four tags, and the names they are given, as first letter and tail. */
  lemma CapitalisedTagParts()
    ensures "specialize" == ['s'] + "pecialize" && "setup" == ['s'] + "etup"
    ensures "provisioning" == ['p'] + "rovisioning" && "pasetup" == ['p'] + "asetup"
  {
  }

  lemma CapitalisedNameParts()
    ensures "Specialize" == ['S'] + "pecialize" && "Setup" == ['S'] + "etup"
    ensures "Provisioning" == ['P'] + "rovisioning" && "Pasetup" == ['P'] + "asetup"
  {
  }

  /** `capitalize()` on the four phase tags that have no fixed spelling. */
  lemma CapitalisedTags()
    ensures Capitalize("specialize") == "Specialize" && Capitalize("setup") == "Setup"
    ensures Capitalize("provisioning") == "Provisioning" && Capitalize("pasetup") == "Pasetup"
  {
    CapitalisedTagTails();
    CapitalisedTagParts();
    CapitalisedNameParts();
    CapitalizeLowerTail('s', "pecialize");
    CapitalizeLowerTail('s', "etup");
    CapitalizeLowerTail('p', "rovisioning");
    CapitalizeLowerTail('p', "asetup");
    assert UpperChar('s') == 'S' && UpperChar('p') == 'P';
  }

  /** The XML path spells `specialize`, `setup`, `provisioning` and `pasetup` with a capital first letter. */
  lemma XmlSectionNameSpellings()
    ensures XmlSectionName("specialize") == "Specialize" && XmlSectionName("setup") == "Setup"
    ensures XmlSectionName("provisioning") == "Provisioning" && XmlSectionName("pasetup") == "Pasetup"
  {
    CapitalisedTags();
    XmlSectionNameCapitalises("specialize");
    XmlSectionNameCapitalises("setup");
    XmlSectionNameCapitalises("provisioning");
    XmlSectionNameCapitalises("pasetup");
  }

  /** Three of those spellings differ from the names the JSON table gives the same phases. */
  lemma JsonSpellingsDiffer()
    ensures JsonSectionNames["specialize"] != "Specialize"
    ensures JsonSectionNames["provisioning"] != "Provisioning"
    ensures JsonSectionNames["pasetup"] != "Pasetup"
  {
    assert JsonSectionNames["pasetup"] == "PaSetup";
  }

  /** The XML path never produces the names reserved for the `NO_DATA` and `ERROR` records. */
  lemma XmlSectionNameNotReserved(n: string)
    ensures XmlSectionName(n) != "NO_DATA" && XmlSectionName(n) != "ERROR"
  {
    var r := XmlSectionName(n);
    if |r| >= 2 && r == Capitalize(n) {
      assert r[1] == LowerChar(n[1]);
      assert r[1] != 'O' && r[1] != 'R';
    }
  }

  /** The records of the XML path: one per phase found, in the order `find_sections` lists them. */
  function XmlRecords(machine: string, sections: Dict<string, Element>,
                      parseTime: string -> Option<int>, parseTick: string -> Option<int>): (rs: seq<Record>)
    requires Valid(sections)
    ensures |rs| == |sections.keys|
    ensures forall i :: 0 <= i < |rs| ==>
              sections.keys[i] in sections.entries
              && rs[i] == ExtractSectionRecord(machine, XmlSectionName(sections.keys[i]),
                                               sections.entries[sections.keys[i]], parseTime, parseTick)
  {
    seq(|sections.keys|, i requires 0 <= i < |sections.keys| =>
      assert sections.keys[i] in sections.entries.Keys;
      ExtractSectionRecord(machine, XmlSectionName(sections.keys[i]), sections.entries[sections.keys[i]],
                           parseTime, parseTick))
  }

  /** Every record of `rs` is for `machine` and well formed. */
  predicate AllFor(rs: seq<Record>, machine: string)
  {
    forall i :: 0 <= i < |rs| ==> rs[i].machine == machine && WellFormed(rs[i])
  }

  lemma AllForAppend(a: seq<Record>, b: seq<Record>, machine: string)
    requires AllFor(a, machine) && AllFor(b, machine)
    ensures AllFor(a + b, machine)
  {
  }

  lemma XmlRecordsFor(machine: string, sections: Dict<string, Element>,
                      parseTime: string -> Option<int>, parseTick: string -> Option<int>)
    requires Valid(sections)
    ensures AllFor(XmlRecords(machine, sections, parseTime, parseTick), machine)
  {
  }

  /** The end of the procedure: the companion record when there is a timing, then `NO_DATA` if still empty. */
  function Finish(machine: string, rs: seq<Record>, companion: Option<int>): (out: seq<Record>)
    ensures out != []
    ensures AllFor(rs, machine) ==> AllFor(out, machine)
    ensures companion.Some? ==> out == rs + [PaSetupRecord(machine, companion.value)]
    ensures companion.None? && rs != [] ==> out == rs
    ensures companion.None? && rs == [] ==> out == [NoDataRecord(machine)]
  {
    var withTiming := if companion.Some? then rs + [PaSetupRecord(machine, companion.value)] else rs;
    if withTiming == [] then [NoDataRecord(machine)] else withTiming
  }

  /**
   * `parse_wasetup_xml` over already parsed inputs: the telemetry object
   * (empty when the file has none or it does not parse), the XML tree, and the
   * companion-log timing.
   */
  function WaSetupRecords(machine: string, telemetry: Dict<string, SectionData>, xml: XmlDoc, companion: Option<int>,
                          parseTime: string -> Option<int>, parseTick: string -> Option<int>): (rs: seq<Record>)
    requires Valid(telemetry)
    ensures rs != []
    ensures AllFor(rs, machine)
  {
    ValidAllIn(telemetry);
    var json := JsonScan(machine, telemetry.keys, telemetry.entries, parseTime, parseTick);
    assert AllFor(json.records, machine);
    if json.failure.Some? then
      AllForAppend(json.records, [ErrorRecord(machine, json.failure.value)], machine);
      json.records + [ErrorRecord(machine, json.failure.value)]
    else if json.records != [] then Finish(machine, json.records, companion)
    else match xml
      case Malformed(message) => [ErrorRecord(machine, message)]
      case Parsed(root) =>
        var sections := SectionsIn(Iter(root));
        XmlRecordsFor(machine, sections, parseTime, parseTick);
        Finish(machine, XmlRecords(machine, sections, parseTime, parseTick), companion)
  }

  lemma ValidAllIn<V>(d: Dict<string, V>)
    requires Valid(d)
    ensures forall i :: 0 <= i < |d.keys| ==> d.keys[i] in d.entries
  {
    forall i | 0 <= i < |d.keys| ensures d.keys[i] in d.entries {
      assert d.keys[i] in d.entries.Keys;
    }
  }

  /** Which way the procedure went for a file. */
  function JsonOf(machine: string, telemetry: Dict<string, SectionData>,
                  parseTime: string -> Option<int>, parseTick: string -> Option<int>): Scan
    requires Valid(telemetry)
  {
    ValidAllIn(telemetry);
    JsonScan(machine, telemetry.keys, telemetry.entries, parseTime, parseTick)
  }

  /**
   * The XML tree is consulted only when the telemetry walk neither produced a
   * record nor failed: otherwise the outcome is the same whatever the tree.
   */
  lemma XmlOnlyAsFallback(machine: string, telemetry: Dict<string, SectionData>, xml1: XmlDoc, xml2: XmlDoc,
                          companion: Option<int>, parseTime: string -> Option<int>, parseTick: string -> Option<int>)
    requires Valid(telemetry)
    requires JsonOf(machine, telemetry, parseTime, parseTick).records != []
             || JsonOf(machine, telemetry, parseTime, parseTick).failure.Some?
    ensures WaSetupRecords(machine, telemetry, xml1, companion, parseTime, parseTick)
            == WaSetupRecords(machine, telemetry, xml2, companion, parseTime, parseTick)
  {
  }

  /**
   * The outcome case by case: JSON records when there are any, otherwise the
   * XML phase records, each followed by the companion record when there is a
   * timing; `ERROR` after the records so far when the walk failed, and alone
   * when the XML could not be parsed.
   */
  lemma WaSetupOutcome(machine: string, telemetry: Dict<string, SectionData>, xml: XmlDoc, companion: Option<int>,
                       parseTime: string -> Option<int>, parseTick: string -> Option<int>)
    requires Valid(telemetry)
    ensures var json, rs := JsonOf(machine, telemetry, parseTime, parseTick),
                            WaSetupRecords(machine, telemetry, xml, companion, parseTime, parseTick);
      && (json.failure.Some? ==> rs == json.records + [ErrorRecord(machine, json.failure.value)])
      && (json.failure.None? && json.records != [] ==> rs == Finish(machine, json.records, companion))
      && (json.failure.None? && json.records == [] && xml.Malformed? ==> rs == [ErrorRecord(machine, xml.message)])
      && (json.failure.None? && json.records == [] && xml.Parsed? ==>
            rs == Finish(machine, XmlRecords(machine, SectionsIn(Iter(xml.root)), parseTime, parseTick), companion))
  {
  }

  /**
   * A failure of the telemetry walk is reported by a final `ERROR` record
   * carrying the message of a phase key whose value is not an object.
   */
  lemma FailureReported(machine: string, telemetry: Dict<string, SectionData>, xml: XmlDoc, companion: Option<int>,
                        parseTime: string -> Option<int>, parseTick: string -> Option<int>)
    requires Valid(telemetry)
    requires JsonOf(machine, telemetry, parseTime, parseTick).failure.Some?
    ensures var rs := WaSetupRecords(machine, telemetry, xml, companion, parseTime, parseTick);
      && rs[|rs| - 1].section == "ERROR"
      && exists i :: 0 <= i < |telemetry.keys| && telemetry.keys[i] in JsonSectionNames
                     && telemetry.entries[telemetry.keys[i]].NonObject?
                     && rs[|rs| - 1] == ErrorRecord(machine, NoGetMessage(telemetry.entries[telemetry.keys[i]].typeName))
  {
    ValidAllIn(telemetry);
    JsonScanFailure(machine, telemetry.keys, telemetry.entries, parseTime, parseTick);
  }

  /**
   * With `n` the first phase key whose value is not an object, the outcome is
   * the records of the keys before it followed by the `ERROR` record of that
   * value: neither the tree nor the companion timing is consulted.
   */
  lemma FailureReportedFirst(machine: string, telemetry: Dict<string, SectionData>, xml: XmlDoc,
                             companion: Option<int>, parseTime: string -> Option<int>, parseTick: string -> Option<int>,
                             n: nat)
    requires Valid(telemetry) && n < |telemetry.keys|
    requires telemetry.keys[n] in JsonSectionNames && telemetry.entries[telemetry.keys[n]].NonObject?
    requires forall i :: 0 <= i < n && telemetry.keys[i] in JsonSectionNames ==>
                           telemetry.entries[telemetry.keys[i]].Object?
    ensures AllIn(telemetry.keys[..n], telemetry.entries)
    ensures WaSetupRecords(machine, telemetry, xml, companion, parseTime, parseTick)
            == MappedRecords(machine, telemetry.keys[..n], telemetry.entries, parseTime, parseTick)
               + [ErrorRecord(machine, NoGetMessage(telemetry.entries[telemetry.keys[n]].typeName))]
  {
    ValidAllIn(telemetry);
    JsonScanFirstFailure(machine, telemetry.keys, telemetry.entries, parseTime, parseTick, n);
  }

  /** The JSON path never produces the names reserved for the `NO_DATA` and `ERROR` records. */
  lemma JsonNamesNotReserved()
    ensures "NO_DATA" !in JsonSectionNames.Values && "ERROR" !in JsonSectionNames.Values
  {
  }

  /** Some record of `rs` carries the phase name `name`. */
  ghost predicate HasSection(rs: seq<Record>, name: string)
  {
    exists i :: 0 <= i < |rs| && rs[i].section == name
  }

  /** The records of the JSON walk never carry the name `NO_DATA`. */
  lemma JsonRecordsNotNoData(machine: string, telemetry: Dict<string, SectionData>,
                             parseTime: string -> Option<int>, parseTick: string -> Option<int>)
    requires Valid(telemetry)
    ensures !HasSection(JsonOf(machine, telemetry, parseTime, parseTick).records, "NO_DATA")
  {
    JsonNamesNotReserved();
  }

  /** The records of the XML path never carry the name `NO_DATA`. */
  lemma XmlRecordsNotNoData(machine: string, sections: Dict<string, Element>,
                            parseTime: string -> Option<int>, parseTick: string -> Option<int>)
    requires Valid(sections)
    ensures !HasSection(XmlRecords(machine, sections, parseTime, parseTick), "NO_DATA")
  {
    var xs := XmlRecords(machine, sections, parseTime, parseTick);
    forall i | 0 <= i < |xs| ensures xs[i].section != "NO_DATA" {
      XmlSectionNameNotReserved(sections.keys[i]);
    }
  }

  /** `Finish` adds a `NO_DATA` record exactly when it is given no record and no companion timing. */
  lemma FinishNoData(machine: string, rs: seq<Record>, companion: Option<int>)
    requires !HasSection(rs, "NO_DATA")
    ensures HasSection(Finish(machine, rs, companion), "NO_DATA") <==> rs == [] && companion.None?
  {
    var out := Finish(machine, rs, companion);
    if rs == [] && companion.None? {
      assert out[0].section == "NO_DATA";
    } else if companion.Some? {
      forall i | 0 <= i < |out| ensures out[i].section != "NO_DATA" {
        if i < |rs| { assert out[i] == rs[i]; }
      }
    }
  }

  /** The `ERROR` record ending a failed walk does not bring a `NO_DATA` record with it. */
  lemma ErrorAppendedNoData(rs: seq<Record>, e: Record)
    requires !HasSection(rs, "NO_DATA") && e.section == "ERROR"
    ensures !HasSection(rs + [e], "NO_DATA")
  {
    var out := rs + [e];
    forall i | 0 <= i < |out| ensures out[i].section != "NO_DATA" {
      if i < |rs| { assert out[i] == rs[i]; }
    }
  }

  /**
   * A file yields a `NO_DATA` record exactly when the walk neither failed nor
   * produced a record, the XML parsed but holds no phase element, and there
   * is no companion timing.
   */
  lemma NoDataExactly(machine: string, telemetry: Dict<string, SectionData>, xml: XmlDoc, companion: Option<int>,
                      parseTime: string -> Option<int>, parseTick: string -> Option<int>)
    requires Valid(telemetry)
    ensures var json := JsonOf(machine, telemetry, parseTime, parseTick);
      HasSection(WaSetupRecords(machine, telemetry, xml, companion, parseTime, parseTick), "NO_DATA")
      <==> json.failure.None? && json.records == [] && xml.Parsed? && companion.None?
           && SectionsIn(Iter(xml.root)).keys == []
  {
    var json := JsonOf(machine, telemetry, parseTime, parseTick);
    WaSetupOutcome(machine, telemetry, xml, companion, parseTime, parseTick);
    JsonRecordsNotNoData(machine, telemetry, parseTime, parseTick);
    if json.failure.Some? {
      ErrorAppendedNoData(json.records, ErrorRecord(machine, json.failure.value));
    } else if json.records != [] {
      FinishNoData(machine, json.records, companion);
    } else if xml.Parsed? {
      var sections := SectionsIn(Iter(xml.root));
      XmlRecordsNotNoData(machine, sections, parseTime, parseTick);
      FinishNoData(machine, XmlRecords(machine, sections, parseTime, parseTick), companion);
    } else {
      assert WaSetupRecords(machine, telemetry, xml, companion, parseTime, parseTick)[0].section == "ERROR";
    }
  }

  /** The JSON branch of `parse_wasetup_xml`: the loop over the telemetry keys, up to the first failure. */
  method ScanTelemetry(machine: string, telemetry: Dict<string, SectionData>,
                       parseTime: string -> Option<int>, parseTick: string -> Option<int>)
    returns (records: seq<Record>, failure: Option<string>)
    requires Valid(telemetry)
    ensures AllIn(telemetry.keys, telemetry.entries)
    ensures Scan(records, failure) == JsonScan(machine, telemetry.keys, telemetry.entries, parseTime, parseTick)
  {
    ValidAllIn(telemetry);
    var keys := telemetry.keys;
    records, failure := [], None;
    var i := 0;
    while i < |keys| && failure.None?
      invariant 0 <= i <= |keys|
      invariant JsonScan(machine, keys[..i], telemetry.entries, parseTime, parseTick) == Scan(records, failure)
    {
      var key := keys[i];
      JsonScanStep(machine, keys, telemetry.entries, parseTime, parseTick, i);
      if key in JsonSectionNames {
        match telemetry.entries[key]
        case NonObject(t) =>
          failure := Some(NoGetMessage(t));
        case Object(fields) =>
          records := records + [JsonRecord(machine, JsonSectionNames[key], fields, parseTime, parseTick)];
      }
      i := i + 1;
    }
    if failure.Some? {
      JsonScanSticky(machine, keys, telemetry.entries, parseTime, parseTick, i);
    } else {
      PrefixAll(keys);
    }
  }

  /** The XML branch of `parse_wasetup_xml`: one record per phase element `find_sections` returns. */
  method ScanXml(machine: string, root: Element, parseTime: string -> Option<int>, parseTick: string -> Option<int>)
    returns (records: seq<Record>)
    ensures records == XmlRecords(machine, SectionsIn(Iter(root)), parseTime, parseTick)
  {
    var sections := FindSections(root);
    ghost var all := XmlRecords(machine, sections, parseTime, parseTick);
    records := [];
    var j := 0;
    while j < |sections.keys|
      invariant 0 <= j <= |sections.keys| == |all|
      invariant records == all[..j]
    {
      var name := sections.keys[j];
      assert name in sections.entries.Keys;
      records := records + [ExtractSectionRecord(machine, XmlSectionName(name), sections.entries[name],
                                                 parseTime, parseTick)];
      PrefixStep(all, j);
      j := j + 1;
    }
    PrefixAll(all);
  }

  /**
   * `parse_wasetup_xml`: walk the telemetry keys appending records, fall back
   * to the XML tree only when that gave none, then append the companion and
   * `NO_DATA` records; a failure appends `ERROR` and ends the procedure.
   */
  method ParseWaSetup(machine: string, telemetry: Dict<string, SectionData>, xml: XmlDoc, companion: Option<int>,
                      parseTime: string -> Option<int>, parseTick: string -> Option<int>)
    returns (records: seq<Record>)
    requires Valid(telemetry)
    ensures records == WaSetupRecords(machine, telemetry, xml, companion, parseTime, parseTick)
  {
    var failure;
    records, failure := ScanTelemetry(machine, telemetry, parseTime, parseTick);
    if failure.Some? {
      records := records + [ErrorRecord(machine, failure.value)];
      return;
    }
    if records == [] {
      match xml
      case Malformed(message) =>
        records := [ErrorRecord(machine, message)];
        return;
      case Parsed(root) =>
        records := ScanXml(machine, root, parseTime, parseTick);
    }
    if companion.Some? {
      records := records + [PaSetupRecord(machine, companion.value)];
    }
    if records == [] {
      records := [NoDataRecord(machine)];
    }
  }
}
