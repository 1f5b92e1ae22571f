/** The tag table of cimXmlParser.c. */
module CimTags {
  import opened CText
  import opened Lexing
  import opened TokenCodes

  function E(name: string, x: int, z: int, attrs: seq<string>): Tag {
    Element(name, x, z, z, attrs, false, NoCheck)
  }

  function C(name: string, x: int, z: int, attrs: seq<string>): Tag {
    Element(name, x, z, z, attrs, true, NoCheck)
  }

  /** Row `i` of the table. */
  function TagAt(i: nat): Tag
    requires i < 45
  {
    match i
    case 0 => E("?xml", XTOK_XML, ZTOK_XML, ["version", "encoding"])
    case 1 => E("CIM", XTOK_CIM, ZTOK_CIM, ["CIMVERSION", "DTDVERSION"])
    case 2 => E("MESSAGE", XTOK_MESSAGE, ZTOK_MESSAGE, ["ID", "PROTOCOLVERSION"])
    case 3 => E("SIMPLERSP", XTOK_SIMPLERSP, ZTOK_SIMPLERSP, [])
    case 4 => E("ERROR", XTOK_ERROR, ZTOK_ERROR, ["CODE", "DESCRIPTION"])
    case 5 => E("IMETHODRESPONSE", XTOK_IMETHODRESP, ZTOK_IMETHODRESP, ["NAME"])
    case 6 => E("IRETURNVALUE", XTOK_IRETVALUE, ZTOK_IRETVALUE, [])
    case 7 => E("LOCALNAMESPACEPATH", XTOK_LOCALNAMESPACEPATH, ZTOK_LOCALNAMESPACEPATH, [])
    case 8 => E("LOCALINSTANCEPATH", XTOK_LOCALINSTANCEPATH, ZTOK_LOCALINSTANCEPATH, [])
    case 9 => E("LOCALCLASSPATH", XTOK_LOCALCLASSPATH, ZTOK_LOCALCLASSPATH, [])
    case 10 => E("NAMESPACEPATH", XTOK_NAMESPACEPATH, ZTOK_NAMESPACEPATH, [])
    case 11 => E("NAMESPACE", XTOK_NAMESPACE, ZTOK_NAMESPACE, ["NAME"])
    case 12 => Element("PARAMVALUE", XTOK_PARAMVALUE, ZTOK_PARAMVALUE, ZTOK_PARAMVALUE, ["NAME", "PARAMTYPE", "EMBEDDEDOBJECT"], false, EmbeddedObject(2))
    case 13 => E("CLASSNAME", XTOK_CLASSNAME, ZTOK_CLASSNAME, ["NAME"])
    case 14 => E("VALUE.ARRAY", XTOK_VALUEARRAY, ZTOK_VALUEARRAY, [])
    case 15 => E("VALUE.NAMEDINSTANCE", XTOK_VALUENAMEDINSTANCE, ZTOK_VALUENAMEDINSTANCE, [])
    case 16 => E("VALUE.REFERENCE", XTOK_VALUEREFERENCE, ZTOK_VALUEREFERENCE, [])
    case 17 => Element("VALUE.REFARRAY", XTOK_VALUEREFARRAY, ZTOK_VALUEARRAY, ZTOK_VALUEREFARRAY, [], false, NoCheck)
    case 18 => Element("VALUE.OBJECTWITHPATH", XTOK_VALUEOBJECTWITHPATH, XTOK_VALUEOBJECTWITHPATH, ZTOK_VALUEOBJECTWITHPATH, [], false, NoCheck)
    case 19 => C("VALUE", XTOK_VALUE, ZTOK_VALUE, [])
    case 20 => C("HOST", XTOK_HOST, ZTOK_HOST, [])
    case 21 => C("KEYVALUE", XTOK_KEYVALUE, ZTOK_KEYVALUE, ["VALUETYPE", "TYPE"])
    case 22 => E("KEYBINDING", XTOK_KEYBINDING, ZTOK_KEYBINDING, ["NAME"])
    case 23 => E("INSTANCEPATH", XTOK_INSTANCEPATH, ZTOK_INSTANCEPATH, [])
    case 24 => E("INSTANCENAME", XTOK_INSTANCENAME, ZTOK_INSTANCENAME, ["CLASSNAME"])
    case 25 => E("INSTANCE", XTOK_INSTANCE, ZTOK_INSTANCE, ["CLASSNAME"])
    case 26 => E("PROPERTY.REFERENCE", XTOK_PROPERTYREFERENCE, ZTOK_PROPERTYREFERENCE, ["NAME", "REFERENCECLASS", "CLASSORIGIN", "PROPAGATED"])
    case 27 => E("PROPERTY.ARRAY", XTOK_PROPERTYARRAY, ZTOK_PROPERTYARRAY, ["NAME", "TYPE", "CLASSORIGIN", "PROPAGATED", "ARRAYSIZE", "EMBEDDEDOBJECT"])
    case 28 => E("PROPERTY", XTOK_PROPERTY, ZTOK_PROPERTY, ["NAME", "TYPE", "CLASSORIGIN", "PROPAGATED", "EMBEDDEDOBJECT"])
    case 29 => E("QUALIFIER", XTOK_QUALIFIER, ZTOK_QUALIFIER, ["NAME", "TYPE", "PROPAGATED", "OVERRIDABLE", "TOSUBCLASS", "TOINSTANCE", "TRANSLATABLE"])
    case 30 => E("PARAMETER.ARRAY", XTOK_PARAMARRAY, ZTOK_PARAMARRAY, ["NAME", "TYPE", "ARRAYSIZE"])
    case 31 => E("PARAMETER.REFERENCE", XTOK_PARAMREF, ZTOK_PARAMREF, ["NAME", "REFERENCECLASS"])
    case 32 => E("PARAMETER.REFARRAY", XTOK_PARAMREFARRAY, ZTOK_PARAMREFARRAY, ["NAME", "REFERENCECLASS", "ARRAYSIZE"])
    case 33 => E("PARAMETER", XTOK_PARAM, ZTOK_PARAM, ["NAME", "TYPE"])
    case 34 => E("METHOD", XTOK_METHOD, ZTOK_METHOD, ["NAME", "TYPE", "CLASSORIGIN", "PROPAGATED"])
    case 35 => E("CLASS", XTOK_CLASS, ZTOK_CLASS, ["NAME", "SUPERCLASS"])
    case 36 => E("OBJECTPATH", XTOK_OBJECTPATH, ZTOK_OBJECTPATH, [])
    case 37 => E("METHODRESPONSE", XTOK_METHODRESP, ZTOK_METHODRESP, ["NAME"])
    case 38 => E("RETURNVALUE", XTOK_RETVALUE, ZTOK_RETVALUE, ["PARAMTYPE", "EMBEDDEDOBJECT"])
    case 39 => E("CLASSPATH", XTOK_CLASSPATH, ZTOK_CLASSPATH, [])
    case 40 => E("SIMPLEEXPREQ", XTOK_SIMPLEEXPREQ, ZTOK_SIMPLEEXPREQ, [])
    case 41 => Element("EXPMETHODCALL", XTOK_EXPORTINDICATION, ZTOK_EXPMETHODCALL, ZTOK_EXPMETHODCALL, ["NAME"], false, MustBe("ExportIndication"))
    case 42 => Element("EXPPARAMVALUE", XTOK_EP_INSTANCE, ZTOK_EXPPARAMVALUE, ZTOK_EXPPARAMVALUE, ["NAME"], false, MustBe("NewIndication"))
    case 43 => Cdata("![CDATA[", XTOK_CDATA, ZTOK_CDATA)
    case _ => Cdata("", XTOK_CDATA, ZTOK_CDATA)
  }

  function Tags(): (r: seq<Tag>)
    ensures |r| == 45 && forall i :: 0 <= i < 45 ==> r[i] == TagAt(i)
  {
    seq(45, i requires 0 <= i < 45 => TagAt(i))
  }

  /** The first characters of the rows' names; the last row's name is empty. */
  const FIRSTS := "?CMSEIILLLNNPCVVVVVVHKKIIIPPPQPPPPMCOMRCSEE!"

  lemma LowFirsts(i: nat)
    requires i < 22
    ensures TagAt(i).name != "" && TagAt(i).name[0] == FIRSTS[i]
  {
  }

  lemma HighFirsts(i: nat)
    requires 22 <= i < 44
    ensures TagAt(i).name != "" && TagAt(i).name[0] == FIRSTS[i]
  {
  }

  lemma AttrWords0()
    ensures NulFree("version")
    ensures NulFree("encoding")
    ensures NulFree("CIMVERSION")
    ensures NulFree("DTDVERSION")
    ensures NulFree("ID")
    ensures NulFree("PROTOCOLVERSION")
    ensures NulFree("CODE")
    ensures NulFree("DESCRIPTION")
    ensures NulFree("NAME")
  {
  }

  lemma AttrWords1()
    ensures NulFree("PARAMTYPE")
    ensures NulFree("EMBEDDEDOBJECT")
    ensures NulFree("VALUETYPE")
    ensures NulFree("TYPE")
    ensures NulFree("CLASSNAME")
    ensures NulFree("REFERENCECLASS")
    ensures NulFree("CLASSORIGIN")
    ensures NulFree("PROPAGATED")
    ensures NulFree("ARRAYSIZE")
  {
  }

  lemma AttrWords2()
    ensures NulFree("OVERRIDABLE")
    ensures NulFree("TOSUBCLASS")
    ensures NulFree("TOINSTANCE")
    ensures NulFree("TRANSLATABLE")
    ensures NulFree("SUPERCLASS")
    ensures NulFree("ExportIndication")
    ensures NulFree("NewIndication")
  {
  }

  lemma NameWords0()
    ensures NulFree("?xml")
    ensures NulFree("CIM")
    ensures NulFree("MESSAGE")
    ensures NulFree("SIMPLERSP")
    ensures NulFree("ERROR")
    ensures NulFree("IMETHODRESPONSE")
    ensures NulFree("IRETURNVALUE")
    ensures NulFree("LOCALNAMESPACEPATH")
    ensures NulFree("LOCALINSTANCEPATH")
  {
  }

  lemma NameWords1()
    ensures NulFree("LOCALCLASSPATH")
    ensures NulFree("NAMESPACEPATH")
    ensures NulFree("NAMESPACE")
    ensures NulFree("PARAMVALUE")
    ensures NulFree("CLASSNAME")
    ensures NulFree("VALUE.ARRAY")
    ensures NulFree("VALUE.NAMEDINSTANCE")
    ensures NulFree("VALUE.REFERENCE")
    ensures NulFree("VALUE.REFARRAY")
  {
  }

  lemma NameWords2()
    ensures NulFree("VALUE.OBJECTWITHPATH")
    ensures NulFree("VALUE")
    ensures NulFree("HOST")
    ensures NulFree("KEYVALUE")
    ensures NulFree("KEYBINDING")
    ensures NulFree("INSTANCEPATH")
    ensures NulFree("INSTANCENAME")
    ensures NulFree("INSTANCE")
    ensures NulFree("PROPERTY.REFERENCE")
  {
  }

  lemma NameWords3()
    ensures NulFree("PROPERTY.ARRAY")
    ensures NulFree("PROPERTY")
    ensures NulFree("QUALIFIER")
    ensures NulFree("PARAMETER.ARRAY")
    ensures NulFree("PARAMETER.REFERENCE")
    ensures NulFree("PARAMETER.REFARRAY")
    ensures NulFree("PARAMETER")
    ensures NulFree("METHOD")
    ensures NulFree("CLASS")
  {
  }

  lemma NameWords4()
    ensures NulFree("")
    ensures NulFree("OBJECTPATH")
    ensures NulFree("METHODRESPONSE")
    ensures NulFree("RETURNVALUE")
    ensures NulFree("CLASSPATH")
    ensures NulFree("SIMPLEEXPREQ")
    ensures NulFree("EXPMETHODCALL")
    ensures NulFree("EXPPARAMVALUE")
    ensures NulFree("![CDATA[")
  {
  }

  lemma ValidRows0(i: nat)
    requires 0 <= i < 9
    ensures ValidTag(TagAt(i))
  {
    hide NulFree;
    AttrWords0(); AttrWords1(); AttrWords2(); NameWords0();
  }

  lemma ValidRows9(i: nat)
    requires 9 <= i < 18
    ensures ValidTag(TagAt(i))
  {
    hide NulFree;
    AttrWords0(); AttrWords1(); AttrWords2(); NameWords1();
  }

  lemma ValidRows18(i: nat)
    requires 18 <= i < 27
    ensures ValidTag(TagAt(i))
  {
    hide NulFree;
    AttrWords0(); AttrWords1(); AttrWords2(); NameWords2();
  }

  lemma ValidRows27(i: nat)
    requires 27 <= i < 30
    ensures ValidTag(TagAt(i))
  {
    hide NulFree;
    AttrWords0(); AttrWords1(); AttrWords2(); NameWords3();
  }

  lemma ValidRows30(i: nat)
    requires 30 <= i < 36
    ensures ValidTag(TagAt(i))
  {
    hide NulFree;
    AttrWords0(); AttrWords1(); AttrWords2(); NameWords3();
  }

  lemma ValidRows36(i: nat)
    requires 36 <= i < 45
    ensures ValidTag(TagAt(i))
  {
    hide NulFree;
    AttrWords0(); AttrWords1(); AttrWords2(); NameWords4();
  }

  lemma TableValid()
    ensures ValidTags(Tags())
  {
    hide ValidTag, TagAt;
    forall i | 0 <= i < 45 ensures ValidTag(TagAt(i)) {
      if i < 9 {
        ValidRows0(i);
      } else if i < 18 {
        ValidRows9(i);
      } else if i < 27 {
        ValidRows18(i);
      } else if i < 30 {
        ValidRows27(i);
      } else if i < 36 {
        ValidRows30(i);
      } else {
        ValidRows36(i);
      }
    }
  }
}
