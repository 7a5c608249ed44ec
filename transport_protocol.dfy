/**
 * TransportProtocol: the broker host name and topic a data stream is
 * grounded on, both mutable through setters.
 */
module Grounding {
  import opened JavaText

  class TransportProtocol {
    var brokerHostname: Option<string>
    var topicName: Option<string>

    /** The no-argument constructor leaves both fields null. */
    constructor Empty()
      ensures brokerHostname.None? && topicName.None?
    {
      brokerHostname := None;
      topicName := None;
    }

    /** The (uri, topicName) constructor. */
    constructor (uri: string, topic: string)
      ensures brokerHostname == Some(uri) && topicName == Some(topic)
    {
      brokerHostname := Some(uri);
      topicName := Some(topic);
    }

    /** The copy constructor: a new object with the other protocol's host name and topic. */
    constructor Copy(other: TransportProtocol)
      ensures brokerHostname == other.brokerHostname && topicName == other.topicName
      ensures unchanged(other)
    {
      brokerHostname := other.brokerHostname;
      topicName := other.topicName;
    }

    function GetBrokerHostname(): (r: Option<string>)
      reads this
      ensures r == brokerHostname
    {
      brokerHostname
    }

    function GetTopicName(): (r: Option<string>)
      reads this
      ensures r == topicName
    {
      topicName
    }

    method SetBrokerHostname(uri: Option<string>)
      modifies this`brokerHostname
      ensures brokerHostname == uri && topicName == old(topicName)
    {
      brokerHostname := uri;
    }

    method SetTopicName(topic: Option<string>)
      modifies this`topicName
      ensures topicName == topic && brokerHostname == old(brokerHostname)
    {
      topicName := topic;
    }
  }

  /** A copy is independent of its source: setting the copy's topic leaves the source as it was. */
  method CopyIsIndependent(source: TransportProtocol, topic: string)
    returns (copy: TransportProtocol)
    ensures fresh(copy)
    ensures copy.brokerHostname == source.brokerHostname && copy.topicName == Some(topic)
    ensures unchanged(source)
  {
    copy := new TransportProtocol.Copy(source);
    copy.SetTopicName(Some(topic));
  }
}
