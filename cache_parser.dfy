/** `CacheParser`: maps a `<cache>` element onto the property values of a `CacheFactoryBean`
    definition. */
module CacheParser {
  import opened Results
  import opened JavaStrings
  import opened Dom
  import opened BeanDefinitions

  /** The class of every bean definition this parser produces. */
  const CacheFactoryBeanClass := "org.springframework.data.gemfire.CacheFactoryBean"

  /** The id given to a cache definition that has none of its own. */
  const DefaultCacheId := "gemfire-cache"

  /** `getBeanClass`: the same class for every element. */
  function GetBeanClass(element: Element): (beanClass: string)
    ensures beanClass == CacheFactoryBeanClass
  {
    CacheFactoryBeanClass
  }

  /** `resolveId`: the id the superclass resolved (None for null) when it has text, the default
      id otherwise. The resolved id always has text. */
  function ResolveId(inherited: Option<string>): (id: string)
    ensures HasText(inherited) ==> id == inherited.value
    ensures !HasText(inherited) ==> id == DefaultCacheId
    ensures ContainsText(id)
  {
    if HasText(inherited) then inherited.value else DefaultCacheId
  }

  /** Which `ParsingUtils` setter copies an attribute: as a literal value or as a bean reference. */
  datatype Setter = SetValue | SetReference

  /** One attribute-to-property pair of the parser. */
  datatype AttributeMapping = AttributeMapping(attribute: string, property: string, setter: Setter)

  /** The thirteen attribute-to-property pairs, in the order the parser applies them. */
  const AttributeTable: seq<AttributeMapping> := [
    AttributeMapping("cache-xml-location", "cacheXml", SetValue),
    AttributeMapping("properties-ref", "properties", SetReference),
    AttributeMapping("pdx-serializer", "pdxSerializer", SetReference),
    AttributeMapping("pdx-disk-store", "pdxDiskStoreName", SetValue),
    AttributeMapping("pdx-persistent", "pdxPersistent", SetValue),
    AttributeMapping("pdx-read-serialized", "pdxReadSerialized", SetValue),
    AttributeMapping("pdx-ignore-unread-fields", "pdxIgnoreUnreadFields", SetValue),
    AttributeMapping("use-bean-factory-locator", "useBeanFactoryLocator", SetValue),
    AttributeMapping("copy-on-read", "copyOnRead", SetValue),
    AttributeMapping("lock-timeout", "lockTimeout", SetValue),
    AttributeMapping("lock-lease", "lockLease", SetValue),
    AttributeMapping("message-sync-interval", "messageSyncInterval", SetValue),
    AttributeMapping("search-timeout", "searchTimeout", SetValue)
  ]

  /** The properties the parser sets from child elements. */
  const ChildProperties: seq<string> := ["transactionListeners", "transactionWriter", "initializer"]

  /** No two entries of a table share a property. */
  predicate DistinctProperties(table: seq<AttributeMapping>) {
    forall i, j :: 0 <= i < j < |table| ==> table[i].property != table[j].property
  }

  /** The value an attribute's text becomes. */
  function MappedValue<H>(m: AttributeMapping, text: string): PropertyValue<H> {
    match m.setter
    case SetValue => Literal(text)
    case SetReference => Reference(text)
  }

  /** What one `ParsingUtils` setter adds: the mapped property when the attribute is set,
      nothing otherwise. */
  function MappingAddition<H>(element: Element, m: AttributeMapping): seq<Property<H>> {
    if m.attribute in element.attributes then [Property(m.property, MappedValue(m, element.attributes[m.attribute]))]
    else []
  }

  /** What a table of setters adds, in table order. */
  function TableAdditions<H>(element: Element, table: seq<AttributeMapping>): seq<Property<H>>
    decreases |table|
  {
    if table == [] then []
    else TableAdditions(element, table[..|table| - 1]) + MappingAddition(element, table[|table| - 1])
  }

  /** Each child element resolved through `parseRefOrNestedBeanDeclaration`, in order. */
  function ResolveEach<H>(children: seq<Element>, resolve: Element -> H): seq<H> {
    seq(|children|, i requires 0 <= i < |children| => resolve(children[i]))
  }

  /** The `transactionListeners` list, added only when there is at least one listener child. */
  function ListenerAdditions<H>(element: Element, resolve: Element -> H): seq<Property<H>> {
    var txListeners := ChildElementsByTagName(element, "transaction-listener");
    if |txListeners| == 0 then []
    else [Property("transactionListeners", ManagedList(ResolveEach(txListeners, resolve)))]
  }

  /** A singleton child resolved into `property`, added only when the child exists. */
  function ChildAddition<H>(element: Element, tag: string, property: string, resolve: Element -> H): seq<Property<H>> {
    match ChildElementByTagName(element, tag)
    case None => []
    case Some(child) => [Property(property, Bean(resolve(child)))]
  }

  /** Everything `doParse` adds, in the order it adds it. */
  function CacheAdditions<H>(element: Element, resolve: Element -> H): seq<Property<H>> {
    TableAdditions(element, AttributeTable)
    + ListenerAdditions(element, resolve)
    + ChildAddition(element, "transaction-writer", "transactionWriter", resolve)
    + ChildAddition(element, "initializer", "initializer", resolve)
  }

  /** The builder's properties after `doParse`, given those it held before. */
  function ParsedProperties<H>(before: seq<Property<H>>, element: Element, resolve: Element -> H): seq<Property<H>> {
    PutAll(before, CacheAdditions(element, resolve))
  }

  /** `ParsingUtils.setPropertyValue` and `setPropertyReference`: copy a set attribute onto the
      builder with the mapping's setter. */
  method ApplyMapping<H>(element: Element, builder: BeanDefinitionBuilder<H>, m: AttributeMapping)
    requires builder.Valid()
    modifies builder
    ensures builder.Valid()
    ensures builder.history == old(builder.history) + MappingAddition(element, m)
  {
    if m.attribute in element.attributes {
      builder.AddPropertyValue(m.property, MappedValue(m, element.attributes[m.attribute]));
    }
  }

  /** `ParsingUtils.setPropertyValue`. */
  method SetPropertyValue<H>(element: Element, builder: BeanDefinitionBuilder<H>, attribute: string, property: string)
    requires builder.Valid()
    modifies builder
    ensures builder.Valid()
    ensures builder.history == old(builder.history) + MappingAddition(element, AttributeMapping(attribute, property, SetValue))
  {
    ApplyMapping(element, builder, AttributeMapping(attribute, property, SetValue));
  }

  /** `ParsingUtils.setPropertyReference`. */
  method SetPropertyReference<H>(element: Element, builder: BeanDefinitionBuilder<H>, attribute: string, property: string)
    requires builder.Valid()
    modifies builder
    ensures builder.Valid()
    ensures builder.history == old(builder.history) + MappingAddition(element, AttributeMapping(attribute, property, SetReference))
  {
    ApplyMapping(element, builder, AttributeMapping(attribute, property, SetReference));
  }

  /** The properties of a table, in order. */
  function Properties(table: seq<AttributeMapping>): (r: seq<string>)
    ensures |r| == |table| && forall i :: 0 <= i < |table| ==> r[i] == table[i].property
  {
    seq(|table|, i requires 0 <= i < |table| => table[i].property)
  }

  /** The history of a builder after the first `n` setters of the table have run on it. */
  function AfterSetters<H>(history: seq<Property<H>>, element: Element, n: nat): seq<Property<H>>
    requires n <= |AttributeTable|
  {
    if n == 0 then history
    else AfterSetters(history, element, n - 1) + MappingAddition(element, AttributeTable[n - 1])
  }

  /** Running the first `n` setters appends the additions of that part of the table. */
  lemma {:induction false} AfterSettersAppends<H>(history: seq<Property<H>>, element: Element, n: nat)
    requires n <= |AttributeTable|
    ensures AfterSetters(history, element, n) == history + TableAdditions(element, AttributeTable[..n])
  {
    if n > 0 {
      AfterSettersAppends(history, element, n - 1);
      assert AttributeTable[..n][..n - 1] == AttributeTable[..n - 1];
    }
  }

  /** The table's additions, one setter at a time. */
  lemma TableUnfolded<H>(history: seq<Property<H>>, element: Element)
    ensures history + TableAdditions(element, AttributeTable) == history
            + MappingAddition(element, AttributeTable[0])
            + MappingAddition(element, AttributeTable[1])
            + MappingAddition(element, AttributeTable[2])
            + MappingAddition(element, AttributeTable[3])
            + MappingAddition(element, AttributeTable[4])
            + MappingAddition(element, AttributeTable[5])
            + MappingAddition(element, AttributeTable[6])
            + MappingAddition(element, AttributeTable[7])
            + MappingAddition(element, AttributeTable[8])
            + MappingAddition(element, AttributeTable[9])
            + MappingAddition(element, AttributeTable[10])
            + MappingAddition(element, AttributeTable[11])
            + MappingAddition(element, AttributeTable[12])
  {
    assert AfterSetters(history, element, 1) == AfterSetters(history, element, 0) + MappingAddition(element, AttributeTable[0]);
    assert AfterSetters(history, element, 2) == AfterSetters(history, element, 1) + MappingAddition(element, AttributeTable[1]);
    assert AfterSetters(history, element, 3) == AfterSetters(history, element, 2) + MappingAddition(element, AttributeTable[2]);
    assert AfterSetters(history, element, 4) == AfterSetters(history, element, 3) + MappingAddition(element, AttributeTable[3]);
    assert AfterSetters(history, element, 5) == AfterSetters(history, element, 4) + MappingAddition(element, AttributeTable[4]);
    assert AfterSetters(history, element, 6) == AfterSetters(history, element, 5) + MappingAddition(element, AttributeTable[5]);
    assert AfterSetters(history, element, 7) == AfterSetters(history, element, 6) + MappingAddition(element, AttributeTable[6]);
    assert AfterSetters(history, element, 8) == AfterSetters(history, element, 7) + MappingAddition(element, AttributeTable[7]);
    assert AfterSetters(history, element, 9) == AfterSetters(history, element, 8) + MappingAddition(element, AttributeTable[8]);
    assert AfterSetters(history, element, 10) == AfterSetters(history, element, 9) + MappingAddition(element, AttributeTable[9]);
    assert AfterSetters(history, element, 11) == AfterSetters(history, element, 10) + MappingAddition(element, AttributeTable[10]);
    assert AfterSetters(history, element, 12) == AfterSetters(history, element, 11) + MappingAddition(element, AttributeTable[11]);
    assert AfterSetters(history, element, 13) == AfterSetters(history, element, 12) + MappingAddition(element, AttributeTable[12]);
    AfterSettersAppends(history, element, 13);
    assert AttributeTable[..13] == AttributeTable;
  }

  /** The thirteen attribute setters at the head of `doParse`, in source order. */
  method SetAttributeProperties<H>(element: Element, builder: BeanDefinitionBuilder<H>)
    requires builder.Valid()
    modifies builder
    ensures builder.Valid()
    ensures builder.history == old(builder.history) + TableAdditions(element, AttributeTable)
  {
    ghost var before := builder.history;
    SetPropertyValue(element, builder, "cache-xml-location", "cacheXml");
    SetPropertyReference(element, builder, "properties-ref", "properties");
    SetPropertyReference(element, builder, "pdx-serializer", "pdxSerializer");
    SetPropertyValue(element, builder, "pdx-disk-store", "pdxDiskStoreName");
    SetPropertyValue(element, builder, "pdx-persistent", "pdxPersistent");
    SetPropertyValue(element, builder, "pdx-read-serialized", "pdxReadSerialized");
    SetPropertyValue(element, builder, "pdx-ignore-unread-fields", "pdxIgnoreUnreadFields");
    SetPropertyValue(element, builder, "use-bean-factory-locator", "useBeanFactoryLocator");
    SetPropertyValue(element, builder, "copy-on-read", "copyOnRead");
    SetPropertyValue(element, builder, "lock-timeout", "lockTimeout");
    SetPropertyValue(element, builder, "lock-lease", "lockLease");
    SetPropertyValue(element, builder, "message-sync-interval", "messageSyncInterval");
    SetPropertyValue(element, builder, "search-timeout", "searchTimeout");
    TableUnfolded(before, element);
  }

  /** The listener block of `doParse`: every `transaction-listener` child, resolved in document
      order into one list, which is added only when there is at least one such child. */
  method AddTransactionListeners<H>(element: Element, builder: BeanDefinitionBuilder<H>, resolve: Element -> H)
    requires builder.Valid()
    modifies builder
    ensures builder.Valid()
    ensures builder.history == old(builder.history) + ListenerAdditions(element, resolve)
  {
    var txListeners := ChildElementsByTagName(element, "transaction-listener");
    if |txListeners| > 0 {
      var transactionListeners: seq<H> := [];
      for i := 0 to |txListeners|
        invariant |transactionListeners| == i
        invariant forall k :: 0 <= k < i ==> transactionListeners[k] == resolve(txListeners[k])
      {
        transactionListeners := transactionListeners + [resolve(txListeners[i])];
      }
      assert transactionListeners == ResolveEach(txListeners, resolve);
      builder.AddPropertyValue("transactionListeners", ManagedList(transactionListeners));
    }
  }

  /** The writer and initializer blocks of `doParse`: the first child with the tag, resolved, is
      added under `property` when there is one. */
  method AddSingletonChild<H>(element: Element, builder: BeanDefinitionBuilder<H>, tag: string, property: string,
                              resolve: Element -> H)
    requires builder.Valid()
    modifies builder
    ensures builder.Valid()
    ensures builder.history == old(builder.history) + ChildAddition(element, tag, property, resolve)
  {
    var child := ChildElementByTagName(element, tag);
    if child.Some? {
      builder.AddPropertyValue(property, Bean(resolve(child.value)));
    }
  }

  /** Concatenation regrouped, for the four parts of `doParse`. */
  lemma AppendParts<T>(before: seq<T>, a: seq<T>, b: seq<T>, c: seq<T>, d: seq<T>)
    ensures before + a + b + c + d == before + (a + b + c + d)
  {
  }

  /** `doParse`: the thirteen attribute setters, then the listener list, the writer and the
      initializer. The builder ends up holding its earlier properties updated with exactly
      `CacheAdditions`, in order. */
  method DoParse<H>(element: Element, builder: BeanDefinitionBuilder<H>, resolve: Element -> H)
    requires builder.Valid()
    modifies builder
    ensures builder.Valid()
    ensures builder.history == old(builder.history) + CacheAdditions(element, resolve)
    ensures builder.properties == ParsedProperties(old(builder.properties), element, resolve)
  {
    ghost var before := builder.history;
    SetAttributeProperties(element, builder);
    AddTransactionListeners(element, builder, resolve);
    AddSingletonChild(element, builder, "transaction-writer", "transactionWriter", resolve);
    AddSingletonChild(element, builder, "initializer", "initializer", resolve);
    AppendParts(before, TableAdditions(element, AttributeTable), ListenerAdditions(element, resolve),
                ChildAddition(element, "transaction-writer", "transactionWriter", resolve),
                ChildAddition(element, "initializer", "initializer", resolve));
    PutAllAppend([], before, CacheAdditions(element, resolve));
  }
}

/** What `doParse` promises about the bean definition it fills in. */
module CacheParserProperties {
  import opened Results
  import opened Dom
  import opened BeanDefinitions
  import opened CacheParser

  /** The table has thirteen entries and no property occurs twice in it. */
  lemma AttributeTableDistinct()
    ensures |AttributeTable| == 13
    ensures DistinctProperties(AttributeTable)
  {
  }

  /** No attribute occurs twice in the table either. */
  lemma AttributeTableAttributesDistinct()
    ensures forall i, j :: 0 <= i < j < |AttributeTable| ==> AttributeTable[i].attribute != AttributeTable[j].attribute
  {
  }

  /** The child elements set properties the table does not. */
  lemma ChildPropertiesOutsideTable()
    ensures forall n :: n in ChildProperties ==> n !in Properties(AttributeTable)
  {
  }

  /** Exactly `properties-ref` and `pdx-serializer` are copied as bean references. */
  lemma ReferenceAttributes()
    ensures forall i :: 0 <= i < |AttributeTable| ==>
              (AttributeTable[i].setter == SetReference <==>
               AttributeTable[i].attribute == "properties-ref" || AttributeTable[i].attribute == "pdx-serializer")
  {
  }

  /** The names the table adds are properties of the table. */
  lemma {:induction false} TableAdditionNames<H>(element: Element, table: seq<AttributeMapping>, name: string)
    requires name in Names(TableAdditions<H>(element, table))
    ensures name in Properties(table)
    decreases |table|
  {
    if table != [] {
      var init, last := table[..|table| - 1], table[|table| - 1];
      NamesConcat(TableAdditions<H>(element, init), MappingAddition<H>(element, last));
      if name in Names(TableAdditions<H>(element, init)) {
        TableAdditionNames<H>(element, init, name);
        var k :| 0 <= k < |init| && Properties(init)[k] == name;
        assert Properties(table)[k] == name;
      } else {
        assert Properties(table)[|table| - 1] == name;
      }
    }
  }

  /** A table with distinct properties adds no name twice. */
  lemma {:induction false} TableAdditionsDistinct<H>(element: Element, table: seq<AttributeMapping>)
    requires DistinctProperties(table)
    ensures DistinctNames(TableAdditions<H>(element, table))
    decreases |table|
  {
    if table != [] {
      var init, last := table[..|table| - 1], table[|table| - 1];
      TableAdditionsDistinct<H>(element, init);
      forall n | n in Names(TableAdditions<H>(element, init))
        ensures n !in Names(MappingAddition<H>(element, last))
      {
        TableAdditionNames<H>(element, init, n);
      }
      DistinctConcat(TableAdditions<H>(element, init), MappingAddition<H>(element, last));
    }
  }

  /** In a table with distinct properties, each property holds its attribute's value when the
      attribute is set, and is absent otherwise. */
  lemma {:induction false} TableAdditionsLookup<H>(element: Element, table: seq<AttributeMapping>, i: nat)
    requires DistinctProperties(table) && i < |table|
    ensures var m := table[i];
            Lookup(TableAdditions<H>(element, table), m.property) ==
              if m.attribute in element.attributes then Some(MappedValue(m, element.attributes[m.attribute])) else None
    decreases |table|
  {
    var init, last := table[..|table| - 1], table[|table| - 1];
    var m := table[i];
    LookupConcat(TableAdditions<H>(element, init), MappingAddition<H>(element, last), m.property);
    if i < |table| - 1 {
      assert init[i] == m;
      TableAdditionsLookup<H>(element, init, i);
    } else {
      if m.property in Names(TableAdditions<H>(element, init)) {
        TableAdditionNames<H>(element, init, m.property);
        assert false;
      }
    }
  }

  /** `doParse` never adds a property twice. */
  lemma CacheAdditionsDistinct<H>(element: Element, resolve: Element -> H)
    ensures DistinctNames(CacheAdditions(element, resolve))
  {
    AttributeTableDistinct();
    ChildPropertiesOutsideTable();
    var table := TableAdditions<H>(element, AttributeTable);
    var listeners := ListenerAdditions(element, resolve);
    var writer := ChildAddition(element, "transaction-writer", "transactionWriter", resolve);
    var init := ChildAddition(element, "initializer", "initializer", resolve);
    TableAdditionsDistinct<H>(element, AttributeTable);
    forall n | n in Names(table) ensures n !in ChildProperties {
      TableAdditionNames<H>(element, AttributeTable, n);
    }
    DistinctConcat(table, listeners);
    NamesConcat(table, listeners);
    DistinctConcat(table + listeners, writer);
    NamesConcat(table + listeners, writer);
    DistinctConcat(table + listeners + writer, init);
  }

  /** The name `doParse` adds, and where it finds their values. */
  lemma AdditionsLookup<H>(element: Element, resolve: Element -> H, name: string)
    ensures var table := TableAdditions<H>(element, AttributeTable);
            var rest := ListenerAdditions(element, resolve)
                        + ChildAddition(element, "transaction-writer", "transactionWriter", resolve)
                        + ChildAddition(element, "initializer", "initializer", resolve);
            && (name in Names(CacheAdditions(element, resolve)) <==> name in Names(table) || name in Names(rest))
            && Lookup(CacheAdditions(element, resolve), name) ==
                 if name in Names(table) then Lookup(table, name) else Lookup(rest, name)
  {
    var table := TableAdditions<H>(element, AttributeTable);
    var listeners := ListenerAdditions(element, resolve);
    var writer := ChildAddition(element, "transaction-writer", "transactionWriter", resolve);
    var init := ChildAddition(element, "initializer", "initializer", resolve);
    assert CacheAdditions(element, resolve) == table + (listeners + writer + init);
    NamesConcat(table, listeners + writer + init);
    LookupConcat(table, listeners + writer + init, name);
  }

  /** The table part of `doParse`, looked up at one of the table's properties. */
  lemma TableLookupAt<H>(element: Element, i: nat)
    requires i < |AttributeTable|
    ensures var m := AttributeTable[i];
            && m.property !in ChildProperties
            && Lookup(TableAdditions<H>(element, AttributeTable), m.property) ==
                 if m.attribute in element.attributes then Some(MappedValue(m, element.attributes[m.attribute])) else None
  {
    AttributeTableDistinct();
    TableAdditionsLookup<H>(element, AttributeTable, i);
    ChildPropertiesOutsideTable();
    assert Properties(AttributeTable)[i] == AttributeTable[i].property;
  }

  /** A lookup in the parsed properties: the table's value, else the child blocks' value, else
      the value from before. */
  lemma ParsedLookup<H>(before: seq<Property<H>>, element: Element, resolve: Element -> H, name: string)
    ensures var table := TableAdditions<H>(element, AttributeTable);
            var rest := ListenerAdditions(element, resolve)
                        + ChildAddition(element, "transaction-writer", "transactionWriter", resolve)
                        + ChildAddition(element, "initializer", "initializer", resolve);
            Lookup(ParsedProperties(before, element, resolve), name) ==
              if name in Names(table) then Lookup(table, name)
              else if name in Names(rest) then Lookup(rest, name)
              else Lookup(before, name)
  {
    CacheAdditionsDistinct(element, resolve);
    PutAllLookup(before, CacheAdditions(element, resolve), name);
    AdditionsLookup(element, resolve, name);
  }

  /** Each mapped attribute that is set replaces its property with its value, as a literal or a bean
      reference by the table's setter; a mapped attribute that is not set leaves its property as it
      was. */
  lemma ParsedAttribute<H>(before: seq<Property<H>>, element: Element, resolve: Element -> H, i: nat)
    requires i < |AttributeTable|
    ensures var m := AttributeTable[i];
            Lookup(ParsedProperties(before, element, resolve), m.property) ==
              if m.attribute in element.attributes then Some(MappedValue(m, element.attributes[m.attribute]))
              else Lookup(before, m.property)
  {
    var m := AttributeTable[i];
    TableLookupAt<H>(element, i);
    ChildNamesOnly(element, resolve, m.property);
    ParsedLookup(before, element, resolve, m.property);
  }

  /** The child blocks add only the three child properties. */
  lemma ChildNamesOnly<H>(element: Element, resolve: Element -> H, name: string)
    requires name !in ChildProperties
    ensures name !in Names(ListenerAdditions(element, resolve)
                           + ChildAddition(element, "transaction-writer", "transactionWriter", resolve)
                           + ChildAddition(element, "initializer", "initializer", resolve))
  {
    var listeners := ListenerAdditions(element, resolve);
    var writer := ChildAddition(element, "transaction-writer", "transactionWriter", resolve);
    var init := ChildAddition(element, "initializer", "initializer", resolve);
    NamesConcat(listeners, writer);
    NamesConcat(listeners + writer, init);
  }

  /** The child properties are not among the names the table adds. */
  lemma NotTableProperty<H>(element: Element, name: string)
    requires name in ChildProperties
    ensures name !in Names(TableAdditions<H>(element, AttributeTable))
  {
    ChildPropertiesOutsideTable();
    if name in Names(TableAdditions<H>(element, AttributeTable)) {
      TableAdditionNames<H>(element, AttributeTable, name);
    }
  }

  /** Looks a child property up in the parsed properties, past the table additions. */
  lemma ParsedRestLookup<H>(before: seq<Property<H>>, element: Element, resolve: Element -> H, name: string)
    requires name in ChildProperties
    ensures var listeners := ListenerAdditions(element, resolve);
            var writer := ChildAddition(element, "transaction-writer", "transactionWriter", resolve);
            var init := ChildAddition(element, "initializer", "initializer", resolve);
            Lookup(ParsedProperties(before, element, resolve), name) ==
              if name in Names(listeners) then Lookup(listeners, name)
              else if name in Names(writer) then Lookup(writer, name)
              else if name in Names(init) then Lookup(init, name)
              else Lookup(before, name)
  {
    var listeners := ListenerAdditions(element, resolve);
    var writer := ChildAddition(element, "transaction-writer", "transactionWriter", resolve);
    var init := ChildAddition(element, "initializer", "initializer", resolve);
    NotTableProperty<H>(element, name);
    ParsedLookup(before, element, resolve, name);
    LookupConcat3(listeners, writer, init, name);
  }

  /** `transactionListeners` is set exactly when the element has a `transaction-listener` child,
      to the list of those children resolved one by one in document order. */
  lemma ParsedTransactionListeners<H>(before: seq<Property<H>>, element: Element, resolve: Element -> H)
    ensures var txListeners := ChildElementsByTagName(element, "transaction-listener");
            Lookup(ParsedProperties(before, element, resolve), "transactionListeners") ==
              if |txListeners| == 0 then Lookup(before, "transactionListeners")
              else Some(ManagedList(ResolveEach(txListeners, resolve)))
  {
    ParsedRestLookup(before, element, resolve, "transactionListeners");
  }

  /** `transactionWriter` is set exactly when the element has a `transaction-writer` child, to the
      first such child resolved. */
  lemma ParsedTransactionWriter<H>(before: seq<Property<H>>, element: Element, resolve: Element -> H)
    ensures Lookup(ParsedProperties(before, element, resolve), "transactionWriter") ==
            match ChildElementByTagName(element, "transaction-writer")
            case None => Lookup(before, "transactionWriter")
            case Some(writer) => Some(Bean(resolve(writer)))
  {
    ParsedRestLookup(before, element, resolve, "transactionWriter");
  }

  /** `initializer` is set exactly when the element has an `initializer` child, to the first such
      child resolved. */
  lemma ParsedInitializer<H>(before: seq<Property<H>>, element: Element, resolve: Element -> H)
    ensures Lookup(ParsedProperties(before, element, resolve), "initializer") ==
            match ChildElementByTagName(element, "initializer")
            case None => Lookup(before, "initializer")
            case Some(initializer) => Some(Bean(resolve(initializer)))
  {
    ParsedRestLookup(before, element, resolve, "initializer");
  }

  /** Every property outside the table and the three child properties keeps its value. */
  lemma ParsedLeavesOtherProperties<H>(before: seq<Property<H>>, element: Element, resolve: Element -> H, name: string)
    requires name !in Properties(AttributeTable) && name !in ChildProperties
    ensures Lookup(ParsedProperties(before, element, resolve), name) == Lookup(before, name)
  {
    if name in Names(TableAdditions<H>(element, AttributeTable)) {
      TableAdditionNames<H>(element, AttributeTable, name);
    }
    ChildNamesOnly(element, resolve, name);
    ParsedLookup(before, element, resolve, name);
  }

  /** Parsed into an empty definition, the properties are exactly the additions, in source order. */
  lemma ParsedFromEmpty<H>(element: Element, resolve: Element -> H)
    ensures ParsedProperties([], element, resolve) == CacheAdditions(element, resolve)
  {
    CacheAdditionsDistinct(element, resolve);
    PutAllFromEmpty(CacheAdditions(element, resolve));
  }

  /** The attribute table's part of the example below: only the two set attributes add anything. */
  lemma LocationAndTimeoutTable<H>(element: Element)
    requires element == Element("cache", map["cache-xml-location" := "a.xml", "lock-timeout" := "30"], [])
    ensures TableAdditions<H>(element, AttributeTable) ==
            [Property("cacheXml", Literal("a.xml")), Property("lockTimeout", Literal("30"))]
  {
    TableUnfolded<H>([], element);
    var cacheXml: seq<Property<H>> := [Property("cacheXml", Literal("a.xml"))];
    var lockTimeout: seq<Property<H>> := [Property("lockTimeout", Literal("30"))];
    assert MappingAddition<H>(element, AttributeTable[0]) == cacheXml;
    assert MappingAddition<H>(element, AttributeTable[1]) == [];
    assert MappingAddition<H>(element, AttributeTable[2]) == [];
    assert MappingAddition<H>(element, AttributeTable[3]) == [];
    assert MappingAddition<H>(element, AttributeTable[4]) == [];
    assert MappingAddition<H>(element, AttributeTable[5]) == [];
    assert MappingAddition<H>(element, AttributeTable[6]) == [];
    assert MappingAddition<H>(element, AttributeTable[7]) == [];
    assert MappingAddition<H>(element, AttributeTable[8]) == [];
    assert MappingAddition<H>(element, AttributeTable[9]) == lockTimeout;
    assert MappingAddition<H>(element, AttributeTable[10]) == [];
    assert MappingAddition<H>(element, AttributeTable[11]) == [];
    assert MappingAddition<H>(element, AttributeTable[12]) == [];
    assert [] + TableAdditions<H>(element, AttributeTable)
           == [] + cacheXml + [] + [] + [] + [] + [] + [] + [] + [] + lockTimeout + [] + [] + [];
    assert [] + cacheXml + [] + [] + [] + [] + [] + [] + [] + [] + lockTimeout + [] + [] + [] == cacheXml + lockTimeout;
    assert [] + TableAdditions<H>(element, AttributeTable) == TableAdditions<H>(element, AttributeTable);
  }

  /** A cache element with a cache XML location and a lock timeout and no children yields exactly
      those two literal properties, in that order. */
  lemma LocationAndTimeoutExample<H>(resolve: Element -> H)
    ensures var element := Element("cache", map["cache-xml-location" := "a.xml", "lock-timeout" := "30"], []);
            ParsedProperties([], element, resolve) ==
              [Property("cacheXml", Literal("a.xml")), Property("lockTimeout", Literal("30"))]
  {
    var element := Element("cache", map["cache-xml-location" := "a.xml", "lock-timeout" := "30"], []);
    ParsedFromEmpty(element, resolve);
    LocationAndTimeoutTable<H>(element);
    assert ListenerAdditions(element, resolve) == [];
    assert ChildAddition(element, "transaction-writer", "transactionWriter", resolve) == [];
    assert ChildAddition(element, "initializer", "initializer", resolve) == [];
    assert CacheAdditions(element, resolve) == TableAdditions<H>(element, AttributeTable) + [] + [] + [];
  }

  /** The listener children of an element whose only children are two listeners. */
  lemma TwoListenerChildren(first: Element, second: Element)
    requires first.tag == "transaction-listener" && second.tag == "transaction-listener"
    ensures ChildElementsByTagName(Element("cache", map[], [first, second]), "transaction-listener") == [first, second]
  {
    assert [first, second][1..] == [second];
    assert [second][1..] == [];
  }

  /** What the listener block adds for an element whose only children are two listeners. */
  lemma TwoListenerAdditions<H>(resolve: Element -> H, first: Element, second: Element)
    requires first.tag == "transaction-listener" && second.tag == "transaction-listener"
    ensures ListenerAdditions(Element("cache", map[], [first, second]), resolve)
            == [Property("transactionListeners", ManagedList([resolve(first), resolve(second)]))]
  {
    TwoListenerChildren(first, second);
    assert ResolveEach([first, second], resolve) == [resolve(first), resolve(second)];
  }

  /** Two `transaction-listener` children become a two-entry list in document order. */
  lemma TwoListenersExample<H>(resolve: Element -> H, first: Element, second: Element)
    requires first.tag == "transaction-listener" && second.tag == "transaction-listener"
    ensures var element := Element("cache", map[], [first, second]);
            Lookup(ParsedProperties([], element, resolve), "transactionListeners") ==
              Some(ManagedList([resolve(first), resolve(second)]))
  {
    var element := Element("cache", map[], [first, second]);
    ParsedRestLookup([], element, resolve, "transactionListeners");
    TwoListenerAdditions(resolve, first, second);
  }
}
