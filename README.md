# Local regions and the `<cache>` parser of Spring Data GemFire, in Dafny

This project models two pieces of Spring Data GemFire:

- `LocalRegionFactoryBean` is the factory bean for GemFire regions of LOCAL scope. It narrows the requested data policy to the ones a local region supports. Those are NORMAL and PRELOADED, and each becomes PERSISTENT_REPLICATE when the region persists. Any other known policy is refused as unsupported, and a policy name with text that names no policy is refused as invalid. The bean forces its scope to LOCAL before the superclass initialises the region, and it refuses every attempt to set a scope.
- `CacheParser` is the XML parser for `<cache>` elements. It copies thirteen attributes onto the properties of a `CacheFactoryBean` definition: eleven as literal values and two as bean references. It collects the `transaction-listener` children, in document order, into one list. It resolves the first `transaction-writer` and the first `initializer` child. It names an unnamed cache definition `gemfire-cache`.

Modules:

| file | module | what it holds |
|---|---|---|
| `results.dfy` | `Results` | `Option`, `Result`, and `Outcome` (success or an error) |
| `java_strings.dfy` | `JavaStrings` | `Character.isWhitespace` and Spring's `StringUtils.hasText` |
| `local_region.dfy` | `LocalRegion` | data policies and scopes; the resolution rule as a total function; a decision table and lemmas about it; the `RegionFactory` and `LocalRegionFactoryBean` classes |
| `dom.dfy` | `Dom` | XML elements, and `DomUtils` child lookup by tag |
| `bean_definitions.dfy` | `BeanDefinitions` | the property values of a bean definition as an ordered map with `addPropertyValue`'s replace-or-append update; the `BeanDefinitionBuilder` class |
| `cache_parser.dfy` | `CacheParser`, `CacheParserProperties` | the parser's methods, the specification functions they are proved against, and the lemmas about what a parsed definition holds |

Two collaborators are parameters of the model:

- The data-policy converter is `convert: string -> Option<DataPolicy>`.
- `ParsingUtils.parseRefOrNestedBeanDeclaration` is `resolve: Element -> H`, where `H` is a type parameter standing for whatever a bean reference or nested bean resolves to.

The builder and the region factory are classes that the methods update. Each carries a ghost history of the calls made on it. That history is how `DoParse` is tied to the specification function `CacheAdditions`, and how `ResolveDataPolicy` is shown to set the policy exactly once on success and never on failure.

## Model

| member | source | states |
|---|---|---|
| LocalRegion.ResolveLocalDataPolicy | src/main/java/org/springframework/data/gemfire/LocalRegionFactoryBean.java:55-75 | Invalid-policy error if and only if the name has text and converts to no policy. Unsupported error if and only if it converts to a policy other than NORMAL or PRELOADED. Every error names the request. On success the policy is a local one, and it is PERSISTENT_REPLICATE exactly when the bean persists. A non-persistent bean gets the requested policy, or NORMAL when none converts |
| LocalRegion.Convert | src/main/java/org/springframework/data/gemfire/LocalRegionFactoryBean.java:56 | A null name converts to no policy; any other name converts to whatever the converter gives for it |
| LocalRegion.ResolutionFollowsTable | src/main/java/org/springframework/data/gemfire/LocalRegionFactoryBean.java:61-74 | Resolution succeeds exactly on the (converted request, persistent) pairs of an independently written six-entry table, with that table's policy; pairs missing from the table fail as unsupported unless the name is invalid |
| LocalRegion.InvalidNameRejected | src/main/java/org/springframework/data/gemfire/LocalRegionFactoryBean.java:56-59 | A name with text that the converter does not know fails as an invalid data policy naming it |
| LocalRegion.UnspecifiedOrNormalRequest | src/main/java/org/springframework/data/gemfire/LocalRegionFactoryBean.java:61-65 | A null, empty or NORMAL request yields PERSISTENT_REPLICATE for a persistent bean and NORMAL otherwise |
| LocalRegion.PreloadedRequest | src/main/java/org/springframework/data/gemfire/LocalRegionFactoryBean.java:66-70 | A PRELOADED request yields PERSISTENT_REPLICATE for a persistent bean and PRELOADED otherwise |
| LocalRegion.OtherPoliciesUnsupported | src/main/java/org/springframework/data/gemfire/LocalRegionFactoryBean.java:71-74 | Every other known policy (EMPTY, REPLICATE, PARTITION, ...) fails as unsupported, whatever the persistence flag |
| LocalRegion.PersistenceOnlyUpgrades | src/main/java/org/springframework/data/gemfire/LocalRegionFactoryBean.java:61-74 | The persistence flag never changes whether or how resolution fails; on success, persistence turns the policy into PERSISTENT_REPLICATE |
| LocalRegion.RegionFactory.SetDataPolicy | src/main/java/org/springframework/data/gemfire/LocalRegionFactoryBean.java:64 | The factory holds the given policy, and the call is recorded once |
| LocalRegion.LocalRegionFactoryBean.IsPersistent | src/main/java/org/springframework/data/gemfire/LocalRegionFactoryBean.java:64-69 | The persistence the branches consult is the bean's own persistence flag |
| LocalRegion.LocalRegionFactoryBean.SetScope | src/main/java/org/springframework/data/gemfire/LocalRegionFactoryBean.java:31-34 | Every scope is refused with the scope-not-allowed error, and the bean is unchanged |
| LocalRegion.LocalRegionFactoryBean.SuperSetScope | src/main/java/org/springframework/data/gemfire/LocalRegionFactoryBean.java:38 | The superclass setter assigns the scope and records the assignment |
| LocalRegion.LocalRegionFactoryBean.SuperAfterPropertiesSet | src/main/java/org/springframework/data/gemfire/LocalRegionFactoryBean.java:39 | The superclass initialisation is recorded as one step, together with the scope the bean holds at that moment |
| LocalRegion.LocalRegionFactoryBean.AfterPropertiesSet | src/main/java/org/springframework/data/gemfire/LocalRegionFactoryBean.java:36-40 | The scope ends LOCAL. The steps are, in order, assigning LOCAL and then the superclass initialisation, and the superclass sees scope LOCAL |
| LocalRegion.LocalRegionFactoryBean.ResolveDataPolicy | src/main/java/org/springframework/data/gemfire/LocalRegionFactoryBean.java:54-75 | When `ResolveLocalDataPolicy` (with the bean's own persistence) succeeds, the region factory is given that policy exactly once and the outcome is a pass. When it fails, the outcome carries its error and the factory is untouched |
| JavaStrings.ContainsText | src/main/java/org/springframework/data/gemfire/config/CacheParser.java:90 | True if and only if some character is not Java whitespace, as `StringUtils.hasText` decides on a non-null string |
| JavaStrings.HasText | src/main/java/org/springframework/data/gemfire/config/CacheParser.java:90 | True if and only if the string is not null and some character is not Java whitespace, so null, empty and blank strings have no text |
| Dom.WithTag | src/main/java/org/springframework/data/gemfire/config/CacheParser.java:64 | The children with the tag: no more than there were, exactly those children whose tag matches, and each as many times as it occurs |
| Dom.WithTagSingle | src/main/java/org/springframework/data/gemfire/config/CacheParser.java:64 | A single child is kept exactly when its tag matches |
| Dom.WithTagConcat | src/main/java/org/springframework/data/gemfire/config/CacheParser.java:64-70 | Filtering a concatenation is the concatenation of the filtered parts. With `WithTagSingle`, this fixes the result on every input: the matching children in document order, one entry per child |
| Dom.FirstWithTag | src/main/java/org/springframework/data/gemfire/config/CacheParser.java:73 | None exactly when no child has the tag. Otherwise the result is the child with the tag that has no child with the tag before it |
| Dom.ChildElementsByTagName | src/main/java/org/springframework/data/gemfire/config/CacheParser.java:64 | The direct children with the tag, and no others, each as often as it occurs among the children |
| Dom.ChildElementByTagName | src/main/java/org/springframework/data/gemfire/config/CacheParser.java:73-79 | Null exactly when no direct child has the tag. Otherwise it is the first direct child with the tag |
| BeanDefinitions.Lookup | src/main/java/org/springframework/data/gemfire/config/CacheParser.java:71 | A lookup finds nothing exactly when no property has the name |
| BeanDefinitions.Put | src/main/java/org/springframework/data/gemfire/config/CacheParser.java:71 | A new name is appended at the end. For an existing name, the first property with that name now holds the new value in its place. The length and the order of names are kept, and every entry with another name is unchanged |
| BeanDefinitions.PutLookup | src/main/java/org/springframework/data/gemfire/config/CacheParser.java:71 | After an add, the added name yields the new value and every other name yields its old value |
| BeanDefinitions.PutDistinct | src/main/java/org/springframework/data/gemfire/config/CacheParser.java:71 | An add never makes a name occur twice |
| BeanDefinitions.PutAllLookup | src/main/java/org/springframework/data/gemfire/config/CacheParser.java:51-83 | After distinctly named adds, each added name yields its added value and every other name keeps its earlier value |
| BeanDefinitions.PutAllFromEmpty | src/main/java/org/springframework/data/gemfire/config/CacheParser.java:51-83 | Distinctly named adds into an empty definition give exactly those properties, in the order they were added |
| BeanDefinitions.BeanDefinitionBuilder.AddPropertyValue | src/main/java/org/springframework/data/gemfire/config/CacheParser.java:71 | The builder's properties become the old ones with the add applied, names stay distinct, and the call is recorded |
| CacheParser.GetBeanClass | src/main/java/org/springframework/data/gemfire/config/CacheParser.java:42-45 | Every element yields the `CacheFactoryBean` class |
| CacheParser.ResolveId | src/main/java/org/springframework/data/gemfire/config/CacheParser.java:86-94 | The inherited id when it has text, `gemfire-cache` otherwise; the result always has text |
| CacheParser.ApplyMapping | src/main/java/org/springframework/data/gemfire/config/CacheParser.java:51-63 | A setter adds its property exactly when the attribute is set, with the attribute's value as a literal or a reference |
| CacheParser.SetPropertyValue | src/main/java/org/springframework/data/gemfire/config/CacheParser.java:51 | Adds the attribute's value as a literal under the property exactly when the attribute is set |
| CacheParser.SetPropertyReference | src/main/java/org/springframework/data/gemfire/config/CacheParser.java:52-53 | Adds a bean reference named by the attribute exactly when the attribute is set |
| CacheParser.SetAttributeProperties | src/main/java/org/springframework/data/gemfire/config/CacheParser.java:51-63 | The thirteen setters, run in source order, add exactly the table's additions |
| CacheParser.AddTransactionListeners | src/main/java/org/springframework/data/gemfire/config/CacheParser.java:64-72 | The loop builds the list of every listener child resolved in document order. The list is added only when there is at least one listener |
| CacheParser.AddSingletonChild | src/main/java/org/springframework/data/gemfire/config/CacheParser.java:73-83 | The first child with the tag, resolved, is added under the property when such a child exists, and nothing is added otherwise |
| CacheParser.DoParse | src/main/java/org/springframework/data/gemfire/config/CacheParser.java:47-84 | The calls are, in order: the table, the listeners, the writer, the initializer. The builder's properties are its earlier properties updated with exactly those additions |
| CacheParserProperties.AttributeTableDistinct | src/main/java/org/springframework/data/gemfire/config/CacheParser.java:51-63 | There are thirteen attribute mappings, and no property is mapped twice |
| CacheParserProperties.AttributeTableAttributesDistinct | src/main/java/org/springframework/data/gemfire/config/CacheParser.java:51-63 | No attribute is read twice |
| CacheParserProperties.ChildPropertiesOutsideTable | src/main/java/org/springframework/data/gemfire/config/CacheParser.java:51-83 | The listener, writer and initializer properties are not set by any attribute |
| CacheParserProperties.ReferenceAttributes | src/main/java/org/springframework/data/gemfire/config/CacheParser.java:52-53 | Exactly `properties-ref` and `pdx-serializer` are copied as bean references |
| CacheParserProperties.TableAdditionNames | src/main/java/org/springframework/data/gemfire/config/CacheParser.java:51-63 | The table adds only its own properties |
| CacheParserProperties.TableAdditionsDistinct | src/main/java/org/springframework/data/gemfire/config/CacheParser.java:51-63 | The table never adds a property twice |
| CacheParserProperties.TableAdditionsLookup | src/main/java/org/springframework/data/gemfire/config/CacheParser.java:51-63 | Each mapped property holds its attribute's value when the attribute is set, and is absent otherwise |
| CacheParserProperties.CacheAdditionsDistinct | src/main/java/org/springframework/data/gemfire/config/CacheParser.java:51-83 | A parse never adds a property twice |
| CacheParserProperties.ParsedAttribute | src/main/java/org/springframework/data/gemfire/config/CacheParser.java:51-63 | After parsing, each mapped property holds its set attribute's value, as a literal or a reference by its setter. An unset attribute leaves the property as it was |
| CacheParserProperties.ParsedTransactionListeners | src/main/java/org/springframework/data/gemfire/config/CacheParser.java:64-72 | `transactionListeners` is the document-order list of resolved listener children when there is one or more, and is untouched otherwise |
| CacheParserProperties.ParsedTransactionWriter | src/main/java/org/springframework/data/gemfire/config/CacheParser.java:73-77 | `transactionWriter` is the first writer child resolved when there is one, and is untouched otherwise |
| CacheParserProperties.ParsedInitializer | src/main/java/org/springframework/data/gemfire/config/CacheParser.java:79-83 | `initializer` is the first initializer child resolved when there is one, and is untouched otherwise |
| CacheParserProperties.ParsedLeavesOtherProperties | src/main/java/org/springframework/data/gemfire/config/CacheParser.java:47-84 | Every property that is neither mapped nor a child property keeps its earlier value |
| CacheParserProperties.ParsedFromEmpty | src/main/java/org/springframework/data/gemfire/config/CacheParser.java:47-84 | Parsed into an empty definition, the properties are exactly the additions, in source order |
| CacheParserProperties.LocationAndTimeoutExample | src/main/java/org/springframework/data/gemfire/config/CacheParser.java:51-63 | A cache with `cache-xml-location="a.xml"`, `lock-timeout="30"` and no children yields exactly `cacheXml` then `lockTimeout`, both literals |
| CacheParserProperties.TwoListenersExample | src/main/java/org/springframework/data/gemfire/config/CacheParser.java:64-72 | Two listener children give a two-entry list in document order |

## Left out

- `RegionFactoryBean`, the superclass, is not part of this model. Its `setScope` and `afterPropertiesSet` appear only as the scope assignment and an initialisation step that records the scope it sees. Region creation, eviction, persistence wiring and everything else the superclass does are left out.
- `isPersistent()` is modelled as a plain boolean field of the bean. The superclass's rules for deriving it from the data policy and the persistent attribute are not part of this model.
- The persistent argument of `resolveDataPolicy` is accepted and never read, because the source reads `isPersistent()` instead.
- `DataPolicyConverter` is only a parameter. A null name converts to no policy. The lemma about an empty request assumes the empty name converts to no policy.
- GemFire's `RegionFactory` is reduced to its data policy.
- `ParsingUtils`, `DomUtils`, `parseRefOrNestedBeanDeclaration` and `MutablePropertyValues` are not part of this model; their observable behaviour is modelled:
  - An element's attribute map holds exactly the attributes that count as set.
  - Child lookup compares tags by equality, with no namespace handling.
  - A resolved bean is an opaque value of type `H`. Side effects of resolving it on the parser context are left out.
- `super.doParse` and `super.resolveId` are inputs. The builder arrives holding arbitrary earlier properties, and the inherited id is an optional string.
- The bean class is a class name string rather than a `Class` object.
- Exception classes and message text are left out. Each error is a `ConfigError` case carrying the requested name.
- Generic type parameters `K, V` of the factory bean are left out; they do not affect the logic.
- `JavaStrings.IsWhitespace` follows current Java, where U+180E is not whitespace; older Java versions counted it.
