/**
  The tag handling of the Azure instance-metadata client (imds.go).

  `parseTags` turns the `Compute.Tags` string, shaped `k1:v1;k2:v2`, into a
  map: split on ';', split each token on ':', store `tuple[0] -> tuple[1]`
  token by token. A token without ':' makes `tuple[1]` index out of range and
  Go panics; here that is the `Failure(IndexOutOfRange(i))` outcome, `i` being
  the position of the offending token.
*/
module Imds {
  import opened Wrappers
  import opened GoStrings

  /** The run-time panic `parseTags` raises: the `i`-th ';'-token has no ':'. */
  datatype Panic = IndexOutOfRange(token: nat)

  type Tags = map<string, string>

  /** What one ';'-token contributes: `tuple[0] -> tuple[1]` of its
      ':'-split, or None when `tuple[1]` does not exist, which is exactly
      when the token has no ':'. */
  function ParseTag(tag: string): (r: Option<(string, string)>)
    ensures r.Some? <==> ':' in tag
    ensures r.Some? ==> ':' in tag && r.value == (Key(tag), Value(tag))
  {
    var tuple := Split(tag, ':');
    SplitCount(tag, ':');
    if |tuple| < 2 then
      assert multiset(tag)[':'] == 0;
      None
    else
      Some((tuple[0], tuple[1]))
  }

  /** The key a token is stored under (`tuple[0]`, which always exists): the
      text before the first ':', or the whole token when it has none. */
  function Key(tag: string): (k: string)
    ensures k <= tag && ':' !in k
    ensures |k| == |tag| || tag[|k|] == ':'
  {
    SplitFirst(tag, ':');
    Split(tag, ':')[0]
  }

  /** The value a token stores (`tuple[1]`), defined when the token has a
      ':': the text after the first ':' up to the next ':' or the end, so
      anything after a second ':' is dropped. */
  function Value(tag: string): (v: string)
    requires ':' in tag
    ensures Key(tag) + [':'] + v <= tag && ':' !in v
    ensures |Key(tag)| + 1 + |v| == |tag| || tag[|Key(tag)| + 1 + |v|] == ':'
  {
    SplitRest(tag, ':');
    var k := Key(tag);
    var after := tag[|k| + 1..];
    SplitFirst(after, ':');
    assert Split(tag, ':')[1] == Split(after, ':')[0];
    assert tag == k + [':'] + after by {
      assert tag[..|k|] == k;
    }
    Split(tag, ':')[1]
  }

  /** Every token has the ':' that `tuple[1]` needs. */
  predicate AllTagged(tokens: seq<string>)
  {
    forall i :: 0 <= i < |tokens| ==> ':' in tokens[i]
  }

  /** The map after the loop of `parseTags` has run over `tokens`, left to
      right, starting from the empty map; the first token without ':' stops
      it with a panic, and the panic names a token that has no ':'. */
  function FoldTags(tokens: seq<string>): (r: Result<Tags, Panic>)
    ensures r.Failure? ==> r.error.token < |tokens| && ':' !in tokens[r.error.token]
    decreases |tokens|
  {
    if tokens == [] then Success(map[])
    else
      match FoldTags(tokens[..|tokens| - 1])
      case Failure(p) => Failure(p)
      case Success(m) =>
        match ParseTag(tokens[|tokens| - 1])
        case None => Failure(IndexOutOfRange(|tokens| - 1))
        case Some((k, v)) => Success(m[k := v])
  }

  /** The outcome of `parseTags(input)`: a map exactly when every ';'-token
      has a ':', holding one entry per distinct token key; otherwise the
      panic at the first token without ':'. */
  function TagMap(input: string): (r: Result<Tags, Panic>)
    ensures r.Success? <==> AllTagged(Split(input, ';'))
    ensures r.Success? ==> r.value.Keys == TokenKeys(Split(input, ';'))
    ensures r.Failure? ==>
              var i := r.error.token;
              && i < |Split(input, ';')|
              && ':' !in Split(input, ';')[i]
              && AllTagged(Split(input, ';')[..i])
  {
    var tokens := Split(input, ';');
    FoldSuccessIff(tokens);
    if FoldTags(tokens).Success? then FoldKeys(tokens); FoldTags(tokens)
    else FoldTags(tokens)
  }

  /** `parseTags`: the loop over the ';'-tokens, updating one map entry per
      token, or panicking at the first token without ':'. */
  method ParseTags(input: string) returns (r: Result<Tags, Panic>)
    ensures r == TagMap(input)
    ensures r.Success? <==> AllTagged(Split(input, ';'))
    ensures r.Success? ==> r.value.Keys == TokenKeys(Split(input, ';'))
  {
    var tags: Tags := map[];
    var tagString := Split(input, ';');
    var i := 0;
    while i < |tagString|
      invariant 0 <= i <= |tagString|
      invariant FoldTags(tagString[..i]) == Success(tags)
    {
      var tag := tagString[i];
      var tuple := Split(tag, ':');
      assert tagString[..i + 1][..i] == tagString[..i];
      if |tuple| < 2 {
        FailurePersists(tagString, i + 1);
        r := Failure(IndexOutOfRange(i));
        return;
      }
      tags := tags[tuple[0] := tuple[1]];
      i := i + 1;
    }
    assert tagString[..i] == tagString;
    r := Success(tags);
  }

  /** The keys of the tokens that have a ':'. */
  function TokenKeys(tokens: seq<string>): set<string>
  {
    set i | 0 <= i < |tokens| && ':' in tokens[i] :: Key(tokens[i])
  }

  // ---------------------------------------------------------------------
  // The fold over the tokens

  /** Once the loop has panicked at some prefix, it panics the same way on
      the whole token list. */
  lemma {:induction false} FailurePersists(tokens: seq<string>, n: nat)
    requires n <= |tokens|
    requires FoldTags(tokens[..n]).Failure?
    ensures FoldTags(tokens) == FoldTags(tokens[..n])
    decreases |tokens| - n
  {
    if n < |tokens| {
      assert tokens[..n + 1][..n] == tokens[..n];
      FailurePersists(tokens, n + 1);
    } else {
      assert tokens[..n] == tokens;
    }
  }

  /** The parse succeeds exactly when every token has a ':'; otherwise it
      panics at the first token that lacks one. */
  lemma {:induction false} FoldSuccessIff(tokens: seq<string>)
    ensures FoldTags(tokens).Success? <==> AllTagged(tokens)
    ensures FoldTags(tokens).Failure? ==>
      var i := FoldTags(tokens).error.token;
      && i < |tokens|
      && ':' !in tokens[i]
      && AllTagged(tokens[..i])
    decreases |tokens|
  {
    if tokens != [] {
      var init := tokens[..|tokens| - 1];
      var last := tokens[|tokens| - 1];
      FoldSuccessIff(init);
      assert forall i :: 0 <= i < |init| ==> init[i] == tokens[i];
      if FoldTags(init).Failure? {
        var i := FoldTags(init).error.token;
        assert init[..i] == tokens[..i];
      } else {
        assert tokens[..|tokens| - 1] == init;
      }
    }
  }

  /** The result holds exactly one entry per distinct token key: nothing else
      is added. */
  lemma {:induction false} FoldKeys(tokens: seq<string>)
    requires FoldTags(tokens).Success?
    ensures FoldTags(tokens).value.Keys == TokenKeys(tokens)
    decreases |tokens|
  {
    if tokens != [] {
      var init := tokens[..|tokens| - 1];
      var last := tokens[|tokens| - 1];
      FoldKeys(init);
      forall k ensures k in TokenKeys(tokens) <==> k in TokenKeys(init) + {Key(last)} {
        if k in TokenKeys(tokens) {
          var i :| 0 <= i < |tokens| && ':' in tokens[i] && Key(tokens[i]) == k;
          if i < |tokens| - 1 { assert init[i] == tokens[i]; }
        }
        if k in TokenKeys(init) {
          var i :| 0 <= i < |init| && ':' in init[i] && Key(init[i]) == k;
          assert tokens[i] == init[i];
        }
      }
    }
  }

  /** Last write wins: the value stored for a key is that of the rightmost
      token carrying the key. */
  lemma {:induction false} FoldLastWins(tokens: seq<string>, i: nat)
    requires FoldTags(tokens).Success?
    requires i < |tokens|
    requires forall j :: i < j < |tokens| ==> Key(tokens[j]) != Key(tokens[i])
    ensures AllTagged(tokens)
    ensures Key(tokens[i]) in FoldTags(tokens).value
    ensures FoldTags(tokens).value[Key(tokens[i])] == Value(tokens[i])
    decreases |tokens|
  {
    FoldSuccessIff(tokens);
    var init := tokens[..|tokens| - 1];
    var last := tokens[|tokens| - 1];
    if i < |tokens| - 1 {
      assert init[i] == tokens[i];
      forall j | i < j < |init| ensures Key(init[j]) != Key(init[i]) {
        assert init[j] == tokens[j];
      }
      FoldLastWins(init, i);
    }
  }

  /** The result never has more entries than there are tokens. */
  lemma {:induction false} FoldSize(tokens: seq<string>)
    requires FoldTags(tokens).Success?
    ensures |FoldTags(tokens).value| <= |tokens|
    decreases |tokens|
  {
    if tokens != [] {
      var init := tokens[..|tokens| - 1];
      FoldSize(init);
      var m := FoldTags(init).value;
      var last := tokens[|tokens| - 1];
      var k := Key(last);
      assert FoldTags(tokens).value.Keys == m.Keys + {k};
    }
  }

  /** No later token carries the key of token `i`. */
  predicate LastWithKey(tokens: seq<string>, i: nat)
    requires i < |tokens|
  {
    forall j :: i < j < |tokens| ==> Key(tokens[j]) != Key(tokens[i])
  }

  /** Conversely, every entry of the result comes from the rightmost token
      that carries its key. */
  lemma {:induction false} FoldEntryOrigin(tokens: seq<string>, k: string)
    requires FoldTags(tokens).Success?
    requires k in FoldTags(tokens).value
    ensures exists i ::
              && 0 <= i < |tokens| && ':' in tokens[i] && Key(tokens[i]) == k
              && LastWithKey(tokens, i) && FoldTags(tokens).value[k] == Value(tokens[i])
    decreases |tokens|
  {
    var init := tokens[..|tokens| - 1];
    var last := tokens[|tokens| - 1];
    var n := |tokens| - 1;
    if Key(last) == k {
      assert LastWithKey(tokens, n);
    } else {
      FoldEntryOrigin(init, k);
      var i :| 0 <= i < |init| && ':' in init[i] && Key(init[i]) == k
        && LastWithKey(init, i) && FoldTags(init).value[k] == Value(init[i]);
      assert tokens[i] == init[i];
      forall j | i < j < |tokens| ensures Key(tokens[j]) != Key(tokens[i]) {
        if j < n { assert tokens[j] == init[j]; }
      }
    }
  }

  // ---------------------------------------------------------------------
  // The whole input string

  /** The ';'-tokens the loop walks over rejoin to the input, contain no
      ';', and number one more than the ';' characters of the input. */
  lemma Tokens(input: string)
    ensures Join(Split(input, ';'), ';') == input
    ensures SeparatorFree(Split(input, ';'), ';')
    ensures |Split(input, ';')| == multiset(input)[';'] + 1
  {
    JoinSplit(input, ';');
    SplitSeparatorFree(input, ';');
    SplitCount(input, ';');
  }

  /** At most one entry per ';'-token, i.e. at most one more than the number
      of ';' characters. */
  lemma TagMapSize(input: string)
    requires TagMap(input).Success?
    ensures |TagMap(input).value| <= multiset(input)[';'] + 1
  {
    FoldSize(Split(input, ';'));
    SplitCount(input, ';');
  }

  /** The empty string is a single empty token, which has no ':': panic at
      token 0. */
  lemma EmptyInputPanics()
    ensures TagMap("") == Failure(IndexOutOfRange(0))
  {
  }

  /** A trailing ';' leaves an empty last token, so the parse panics there. */
  lemma TrailingSemicolonPanics(t: string)
    requires ';' !in t && ':' in t
    ensures TagMap(t + ";") == Failure(IndexOutOfRange(1))
  {
    SplitJoin([t, ""], ';');
    assert Join([t, ""], ';') == t + ";";
    var tokens := [t, ""];
    FoldSuccessIff(tokens);
    assert tokens[..1] == [t];
    assert AllTagged(tokens[..1]);
  }

  /** A bare token without ':' after a good one panics at that token. */
  lemma BareTokenPanics()
    ensures TagMap("a:1;bad") == Failure(IndexOutOfRange(1))
  {
  }

  /** Two distinct keys give two entries. */
  lemma TwoTags()
    ensures TagMap("a:1;b:2") == Success(map["a" := "1", "b" := "2"])
  {
    var tokens := ["a:1", "b:2"];
    SplitJoin(tokens, ';');
    assert Join(tokens, ';') == "a:1;b:2";
    SplitJoin(["a", "1"], ':');
    SplitJoin(["b", "2"], ':');
    assert Join(["a", "1"], ':') == "a:1";
    assert Join(["b", "2"], ':') == "b:2";
    assert tokens[..1] == ["a:1"];
    assert tokens[..1][..0] == [];
    assert ParseTag("a:1") == Some(("a", "1"));
    assert ParseTag("b:2") == Some(("b", "2"));
    assert FoldTags(tokens[..1]) == Success(map["a" := "1"]);
  }

  /** A repeated key keeps the later value. */
  lemma RepeatedKeyKeepsLast()
    ensures TagMap("a:1;a:2") == Success(map["a" := "2"])
  {
    var tokens := ["a:1", "a:2"];
    SplitJoin(tokens, ';');
    assert Join(tokens, ';') == "a:1;a:2";
    SplitJoin(["a", "1"], ':');
    SplitJoin(["a", "2"], ':');
    assert Join(["a", "1"], ':') == "a:1";
    assert Join(["a", "2"], ':') == "a:2";
    assert tokens[..1] == ["a:1"];
    assert tokens[..1][..0] == [];
    assert ParseTag("a:1") == Some(("a", "1"));
    assert ParseTag("a:2") == Some(("a", "2"));
    assert FoldTags(tokens[..1]) == Success(map["a" := "1"]);
    assert FoldTags(tokens) == Success(map["a" := "1"]["a" := "2"]);
    assert map["a" := "1"]["a" := "2"] == map["a" := "2"];
  }

  /** Text after a second ':' is dropped. */
  lemma SecondColonDropped()
    ensures TagMap("k:a:b") == Success(map["k" := "a"])
  {
    SplitOfFree("k:a:b", ';');
    SplitJoin(["k", "a", "b"], ':');
    assert Join(["k", "a", "b"], ':') == "k:a:b";
    assert ["k:a:b"][..0] == [];
  }

  /** An empty key is stored like any other. */
  lemma EmptyKeyAllowed()
    ensures TagMap(":v") == Success(map["" := "v"])
  {
    SplitOfFree(":v", ';');
    SplitJoin(["", "v"], ':');
    assert Join(["", "v"], ':') == ":v";
    assert [":v"][..0] == [];
  }

  // ---------------------------------------------------------------------
  // The decoded records and the post-decode step of New

  datatype Plan = Plan(name: string, product: string, publisher: string)

  datatype PublicKey = PublicKey(keyData: string, path: string)

  datatype IPAddress = IPAddress(privateIpAddress: string, publicIpAddress: string)

  datatype Subnet = Subnet(address: string, prefix: string)

  datatype IPv4 = IPv4(ipAddress: seq<IPAddress>, subnet: seq<Subnet>)

  datatype IPv6 = IPv6(ipAddress: seq<IPAddress>)

  datatype Interface = Interface(ipv4: IPv4, ipv6: IPv6, macAddress: string)

  datatype Network = Network(interface: seq<Interface>)

  datatype Compute = Compute(
    azEnvironment: string, customData: string, location: string, name: string,
    offer: string, osType: string, placementGroupId: string, plan: Plan,
    platformFaultDomain: string, platformUpdateDomain: string, provider: string,
    publicKeys: seq<PublicKey>, publisher: string, resourceGroupName: string,
    resourceId: string, sku: string, subscriptionId: string, tags: string,
    version: string, vmId: string, vmScaleSetName: string, vmSize: string,
    zone: string)

  /** The zero value of Compute: what is left when the decoder reaches no
      `compute` object. */
  function ZeroCompute(): (c: Compute)
    ensures c.tags == ""
  {
    Compute("", "", "", "", "", "", "", Plan("", "", ""), "", "", "", [], "",
            "", "", "", "", "", "", "", "", "", "")
  }

  /** The error json.Unmarshal reports, carried through unchanged. */
  datatype DecodeError = DecodeError(message: string)

  /** The top-level record; New sets its ParsedTags field after decoding. */
  class Metadata {
    var compute: Compute
    var network: Network
    var parsedTags: Tags

    /** ParsedTags is the parse of Compute.Tags. */
    ghost predicate TagsDerived()
      reads this
    {
      TagMap(compute.tags) == Success(parsedTags)
    }

    /** The record as json.Unmarshal leaves it: each field holds what was
        decoded into it (a `parsedTags` key in the body is decoded too). */
    constructor (compute: Compute, network: Network, parsedTags: Tags)
      ensures this.compute == compute && this.network == network
      ensures this.parsedTags == parsedTags
    {
      this.compute := compute;
      this.network := network;
      this.parsedTags := parsedTags;
    }

    /** `data.ParsedTags = parseTags(data.Compute.Tags)`: overwrites the
        field whatever it held, or panics and leaves it as it was. */
    method DeriveParsedTags() returns (p: Option<Panic>)
      modifies this`parsedTags
      ensures p.None? <==> TagMap(compute.tags).Success?
      ensures p.None? ==> TagsDerived()
      ensures p.Some? ==> TagMap(compute.tags) == Failure(p.value)
      ensures p.Some? ==> parsedTags == old(parsedTags)
    {
      var r := ParseTags(compute.tags);
      match r
      case Success(m) =>
        parsedTags := m;
        p := None;
      case Failure(e) =>
        p := Some(e);
    }
  }

  /** How New ends once the body has been read: it returns the record and
      the decoder's error side by side, or panics inside parseTags. */
  datatype NewOutcome =
    | Returned(data: Metadata, err: Option<DecodeError>)
    | Panicked(panic: Panic)

  /** The part of New after the body is read (imds.go lines 38-41), given
      what json.Unmarshal decoded and the error it returned. ParsedTags is
      derived even when decoding failed. */
  method New(compute: Compute, network: Network, decodedTags: Tags, unmarshalErr: Option<DecodeError>)
    returns (o: NewOutcome)
    ensures o.Panicked? <==> TagMap(compute.tags).Failure?
    ensures o.Panicked? ==> TagMap(compute.tags) == Failure(o.panic)
    ensures o.Returned? ==>
      && fresh(o.data)
      && o.data.compute == compute && o.data.network == network
      && o.data.TagsDerived()
      && o.err == unmarshalErr
  {
    var data := new Metadata(compute, network, decodedTags);
    var p := data.DeriveParsedTags();
    if p.Some? {
      return Panicked(p.value);
    }
    return Returned(data, unmarshalErr);
  }

  /** A decode that never reaches `compute` leaves Tags empty, so New then
      panics at parseTags' first (and only, empty) token, whatever else was
      decoded and whatever error the decoder returned. */
  method NewOnZeroCompute(network: Network, decodedTags: Tags, unmarshalErr: Option<DecodeError>)
    returns (o: NewOutcome)
    ensures o == Panicked(IndexOutOfRange(0))
  {
    o := New(ZeroCompute(), network, decodedTags, unmarshalErr);
    EmptyInputPanics();
  }
}
