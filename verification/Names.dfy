/** Service names as plans spell them: `service.method`, optionally followed by a compensator
    `:method` or `:service.method` (server/bridge/bridge.go). */
module Names {
  import opened Prelude

  /** Position of the first occurrence, or the length of the string. */
  function IndexOf(s: string, ch: char): (i: nat)
    ensures i <= |s|
    ensures i < |s| ==> s[i] == ch
    ensures forall k :: 0 <= k < i ==> s[k] != ch
    ensures i < |s| <==> ch in s
  {
    if s == [] || s[0] == ch then 0
    else
      assert s == [s[0]] + s[1..];
      1 + IndexOf(s[1..], ch)
  }

  /** `service.method`; without a dot the method is empty. */
  function ParseServiceMethod(s: string): (string, string) {
    var i := IndexOf(s, '.');
    if i < |s| then (s[..i], s[i + 1..]) else (s, "")
  }

  datatype Target = Target(service: string, methodName: string, compSvc: string, compMethod: string)

  function ParseCompensation(s: string): Target {
    var colon := IndexOf(s, ':');
    if colon == |s| then
      var (svc, m) := ParseServiceMethod(s);
      Target(svc, m, "", "")
    else
      var after := s[colon + 1..];
      var (svc, m) := ParseServiceMethod(s[..colon]);
      var dot := IndexOf(after, '.');
      if dot < |after| then Target(svc, m, after[..dot], after[dot + 1..])
      else Target(svc, m, svc, after)
  }

  /** The step loop and the recovery path parse a name differently; they address the same
      service method exactly for the names without a compensator suffix. */
  lemma ParsersAgree(s: string)
    ensures (ParseCompensation(s).service, ParseCompensation(s).methodName) == ParseServiceMethod(s)
            <==> ':' !in s
  {
    hide IndexOf;
    var colon := IndexOf(s, ':');
    if colon < |s| {
      var head, dot := s[..colon], IndexOf(s, '.');
      HeadDot(s, colon);
      var short, long := ParseServiceMethod(head), ParseServiceMethod(s);
      if dot < colon {
        assert |long.1| > |short.1|;
      } else {
        assert |long.0| > |short.0|;
      }
    }
  }

  /** Cutting a name behind its first dot does not move the dot. */
  lemma HeadDot(s: string, colon: nat)
    requires colon < |s| && s[colon] == ':'
    ensures IndexOf(s[..colon], '.') == if IndexOf(s, '.') < colon then IndexOf(s, '.') else colon
    ensures IndexOf(s, '.') != colon
  {
    hide IndexOf;
    var head, dot := s[..colon], IndexOf(s, '.');
    if dot < colon {
      assert head[dot] == '.';
    }
  }

  function Digits(n: nat): (s: string)
    ensures ':' !in s
  {
    var d := ['0' + (n % 10) as char];
    if n < 10 then d else Digits(n / 10) + d
  }

  /** The name of a service id; ids missing from the plan's table get a generated one. */
  function NameOf(names: map<U16, string>, id: U16): string {
    if id in names then names[id] else "svc-" + Digits(id)
  }

  /** No service of the table has a compensator. */
  predicate Plain(names: map<U16, string>) {
    forall id :: id in names ==> ':' !in names[id]
  }

  lemma PlainNames(names: map<U16, string>, id: U16)
    requires Plain(names)
    ensures ':' !in NameOf(names, id)
  {}

  /* ---- names built from parts are taken apart again ---- */

  lemma FirstAt(s: string, ch: char, k: nat)
    requires k < |s| && s[k] == ch && forall i :: 0 <= i < k ==> s[i] != ch
    ensures IndexOf(s, ch) == k
  {
    hide IndexOf;
    assert s[k] in s;
  }

  /** `service.method` is the service and the method; the method may hold further dots. */
  lemma MethodRoundTrip(svc: string, m: string)
    requires '.' !in svc
    ensures ParseServiceMethod(svc + "." + m) == (svc, m) && ParseServiceMethod(svc) == (svc, "")
  {
    hide IndexOf;
    var s := svc + "." + m;
    FirstAt(s, '.', |svc|);
    assert s[..|svc|] == svc && s[|svc| + 1..] == m;
  }

  /** Behind the colon comes the compensator: `service.method` in full, or a method of the same service. */
  lemma CompensationRoundTrip(svc: string, m: string, compSvc: string, compMethod: string)
    requires '.' !in svc && ':' !in svc && ':' !in m && '.' !in compSvc
    ensures ParseCompensation(svc + "." + m) == Target(svc, m, "", "")
    ensures ParseCompensation(svc + "." + m + ":" + (compSvc + "." + compMethod)) == Target(svc, m, compSvc, compMethod)
    ensures '.' !in compMethod ==>
              ParseCompensation(svc + "." + m + ":" + compMethod) == Target(svc, m, svc, compMethod)
  {
    hide IndexOf, ParseServiceMethod, ParseCompensation;
    var head := svc + "." + m;
    assert ':' !in head;
    MethodRoundTrip(svc, m);
    WithoutColon(head);
    WithColon(head, compSvc + "." + compMethod);
    MethodRoundTrip(compSvc, compMethod);
    WithColon(head, compMethod);
  }

  lemma WithoutColon(head: string)
    requires ':' !in head
    ensures ParseCompensation(head) == Target(ParseServiceMethod(head).0, ParseServiceMethod(head).1, "", "")
  {
    hide IndexOf, ParseServiceMethod;
  }

  /** In front of the colon stands the service, behind it the compensator. */
  lemma WithColon(head: string, after: string)
    requires ':' !in head
    ensures var (svc, m) := ParseServiceMethod(head);
            ParseCompensation(head + ":" + after) ==
            if '.' in after then Target(svc, m, ParseServiceMethod(after).0, ParseServiceMethod(after).1)
            else Target(svc, m, svc, after)
  {
    hide IndexOf;
    SplitsAtColon(head, after);
  }

  lemma SplitsAtColon(head: string, after: string)
    requires ':' !in head
    ensures var s := head + ":" + after;
            IndexOf(s, ':') == |head| && s[..|head|] == head && s[|head| + 1..] == after
  {
    hide IndexOf;
    FirstAt(head + ":" + after, ':', |head|);
  }

  /** The number a string of digits stands for. */
  function Value(s: string): int {
    if s == [] then 0 else Value(s[..|s| - 1]) * 10 + (s[|s| - 1] as int - '0' as int)
  }

  /** A service id missing from the table is named by its decimal number. */
  lemma {:induction false} GeneratedName(n: nat)
    ensures Value(Digits(n)) == n && forall ch :: ch in Digits(n) ==> '0' <= ch <= '9'
  {
    var d := ['0' + (n % 10) as char];
    assert d[..0] == [] && Value(d) == n % 10;
    if n >= 10 {
      GeneratedName(n / 10);
      assert (Digits(n / 10) + d)[..|Digits(n / 10)|] == Digits(n / 10);
    }
  }

  lemma UnknownName(names: map<U16, string>, id: U16)
    requires id !in names
    ensures NameOf(names, id)[..4] == "svc-" && Value(NameOf(names, id)[4..]) == id
  {
    hide Digits, Value;
    GeneratedName(id);
    assert NameOf(names, id)[4..] == Digits(id);
  }
}
